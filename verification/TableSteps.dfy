/** What each operation on the peer table does, told by the calls made to the session alone. */
module TableSteps {
  import opened Basics
  import opened Prefixes
  import opened Packets
  import opened WgCore

  // ----- whom a datagram is for

  /** The verdict carries peer `i`'s key, or a receiver index of its block of 256. */
  predicate Names(s: State, v: Verdict, i: nat)
    requires i < |s.peers|
  {
    match v
    case HandshakeInit(sender) => sender == Some(s.peers[i].publicKey)
    case HandshakeResponse(r) => 256 * i <= r < 256 * i + 256
    case CookieReply(r) => 256 * i <= r < 256 * i + 256
    case Data(r) => 256 * i <= r < 256 * i + 256
    case Demand(_) => false
    case Rejected => false
  }

  lemma NamedExactly(s: State, v: Verdict, i: nat)
    requires Consistent(s) && i < |s.peers|
    ensures Named(s, v) == Some(i) <==> Names(s, v, i)
  {
  }

  // ----- the decapsulation loop

  /** The session goes through the states `ts` as it is fed the datagram and then empty input; it writes `net`, one
      datagram a call, and ends the loop with `last`. */
  ghost predicate Calls(x: Session, ts: seq<Tunn>, ip: Ip, d: Bytes, net: seq<Bytes>, last: TunnResult) {
    && |ts| == |net| + 2 && !last.ToNetwork?
    && (forall k :: 0 <= k < |net| ==> x.decapsulate(ts[k], ip, if k == 0 then d else []) == (ToNetwork(net[k]), ts[k + 1]))
    && x.decapsulate(ts[|net|], ip, if net == [] then d else []) == (last, ts[|net| + 1])
  }

  lemma CallsAfterFirst(x: Session, ts: seq<Tunn>, ip: Ip, d: Bytes, net: seq<Bytes>, last: TunnResult)
    requires Calls(x, ts, ip, d, net, last) && net != []
    ensures Calls(x, ts[1..], ip, [], net[1..], last)
  {
    forall k | 0 <= k < |net| - 1
      ensures x.decapsulate(ts[1..][k], ip, []) == (ToNetwork(net[1..][k]), ts[1..][k + 1])
    {
      assert x.decapsulate(ts[k + 1], ip, []) == (ToNetwork(net[k + 1]), ts[k + 2]);
    }
  }

  lemma {:induction false} DrainExactly(x: Session, ts: seq<Tunn>, ip: Ip, d: Bytes, net: seq<Bytes>, last: TunnResult)
    requires x.Valid() && Calls(x, ts, ip, d, net, last)
    ensures Drain(x, ts[0], ip, d) == Drained(ts[|ts| - 1], net, last)
    decreases |net|
  {
    if net != [] {
      CallsAfterFirst(x, ts, ip, d, net, last);
      DrainExactly(x, ts[1..], ip, [], net[1..], last);
      assert x.decapsulate(ts[0], ip, d) == (ToNetwork(net[0]), ts[1]);
      assert net == [net[0]] + net[1..];
    }
  }

  /** Every loop is one of these. */
  lemma {:induction false} DrainCalls(x: Session, t: Tunn, ip: Ip, d: Bytes) returns (ts: seq<Tunn>)
    requires x.Valid()
    ensures ts != [] && ts[0] == t && Calls(x, ts, ip, d, Drain(x, t, ip, d).net, Drain(x, t, ip, d).last)
    decreases d != [], |t.queued|
  {
    var (result, next) := x.decapsulate(t, ip, d);
    if result.ToNetwork? {
      var rest := DrainCalls(x, next, ip, []);
      ts := [t] + rest;
      var after := Drain(x, next, ip, []);
      var net := [result.datagram] + after.net;
      assert Drain(x, t, ip, d).net == net && Drain(x, t, ip, d).last == after.last;
      forall k | 0 <= k < |net|
        ensures x.decapsulate(ts[k], ip, if k == 0 then d else []) == (ToNetwork(net[k]), ts[k + 1])
      {
        if k > 0 {
          assert x.decapsulate(rest[k - 1], ip, []) == (ToNetwork(after.net[k - 1]), rest[k]);
        }
      }
    } else {
      ts := [t, next];
    }
  }

  // ----- one datagram

  /** A datagram that names peer `i` drives that session alone and puts out all it writes. Unless the session breaks,
      the peer is reported, a decrypted packet comes up, and the endpoint becomes the sender where a packet was
      decrypted, data accepted, or anything but a cookie written for a datagram that is no cookie reply. */
  lemma RecvExactly(x: Session, s: State, from: SockAddr, d: Bytes, v: Verdict, i: nat,
                    ts: seq<Tunn>, net: seq<Bytes>, last: TunnResult)
    requires x.Valid() && Consistent(s) && i < |s.peers| && Names(s, v, i)
    requires Calls(x, ts, from.ip, d, net, last) && ts[0] == s.peers[i].tunn
    ensures var o, was := RecvSpec(x, s, from, d, v), s.peers[i];
            var moves := !last.Broken? && (last.ToTunnel? || v.Data? ||
                                           (!v.CookieReply? && exists k :: 0 <= k < |net| && (net[k] == [] || net[k][0] != 3)));
            && o.net == net && o.idx == (if last.Broken? then None else Some(i))
            && o.packets == (if last.ToTunnel? then [last.packet] else [])
            && o.state == State(
                 s.peers[i := Peer(was.publicKey, if moves then Some(from) else was.endpoint, ts[|ts| - 1])], s.byKey)
  {
    NamedExactly(s, v, i);
    DrainExactly(x, ts, from.ip, d, net, last);
    assert AnyAnswer(net) <==> exists k :: 0 <= k < |net| && (net[k] == [] || net[k][0] != 3) by {
      if AnyAnswer(net) {
        var e :| e in net && Answer(e);
        var k :| 0 <= k < |net| && net[k] == e;
      }
      if k :| 0 <= k < |net| && (net[k] == [] || net[k][0] != 3) {
        assert net[k] in net && Answer(net[k]);
      }
    }
  }

  /** One that names no peer changes nothing, and draws at most the cookie the mac check demands. */
  lemma RecvNothing(x: Session, s: State, from: SockAddr, d: Bytes, v: Verdict)
    requires x.Valid() && Consistent(s) && forall i :: 0 <= i < |s.peers| ==> !Names(s, v, i)
    ensures RecvSpec(x, s, from, d, v) == Outcome(s, None, if v.Demand? then [v.cookie] else [], [])
  {
    var named := Named(s, v);
    if named.Some? && named.value < |s.peers| {
      NamedExactly(s, v, named.value);
    }
  }

  /** Between proof of the key and the roaming rule nothing is lost: where the mac check calls data exactly what has
      its type, an endpoint moves for every datagram that proves the key, save a cookie reply that decrypts nothing,
      and else only by the way round. */
  lemma RoamsExactly(x: Session, t: Tunn, ip: Ip, d: Bytes, v: Verdict)
    requires x.Valid() && d != [] && (v.Data? <==> d[0] == DATA) && !Drain(x, t, ip, d).last.Broken?
    ensures Roams(v, Drain(x, t, ip, d)) <==>
              || (FirstProves(x, t, ip, d) && (v.CookieReply? ==> x.decapsulate(t, ip, d).0.ToTunnel?))
              || CookieThenAnswer(x, t, ip, d, v)
  {
    RoamsUnprovenIff(x, t, ip, d, v);
    var (first, next) := x.decapsulate(t, ip, d);
    if first.ToNetwork? {
      EmptyNeverDecrypts(x, next, ip);
      AnswerAfter(first.datagram, Drain(x, next, ip, []).net);
    }
  }

  // ----- timers

  /** What the timers put out: for each peer whose session writes, that datagram, in the order of the peers. */
  lemma {:induction false} TimersExactly(x: Session, peers: seq<Peer>)
    ensures var out := TimersSpec(x, peers).1;
            && (forall e :: e in out <==> e.0 < |peers| && x.timers(peers[e.0].tunn).0 == ToNetwork(e.1))
            && (forall a, b :: 0 <= a < b < |out| ==> out[a].0 < out[b].0)
    decreases |peers|
  {
    if peers != [] {
      var last := |peers| - 1;
      TimersExactly(x, peers[..last]);
      var before := TimersSpec(x, peers[..last]).1;
      forall a | 0 <= a < |before| ensures before[a].0 < last {
        assert before[a] in before;
      }
    }
  }
}
