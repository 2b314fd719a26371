/** The acceptor joined to the packet tasks: a flow the stack opens for a packet it was given passes the gate again,
    is charged to the owner of the packet's source, and holds a guard of that peer until its task has ended. */
module Admission {
  import opened Basics
  import opened Prefixes
  import opened Packets
  import opened ServerNet
  import opened ServerConfig
  import opened ServerTasks
  import opened ServerStart
  import Upstream
  import WgCore
  import Tasks = Isolation
  import Caps = FlowCaps

  /** `hand` is the flow the acceptor is deciding on, `started` those whose tasks it has started; both name a flow by
      its peer and the packet that opened it. */
  datatype State = State(net: Net, caps: Caps.State, hand: Option<(nat, Packet)>, started: seq<(nat, Packet)>)

  datatype Event =
    | Task(event: Tasks.Event)
    | Offer(packet: Packet)
    | Atomic(step: Caps.Step)

  /** The peer a flow for that packet is charged to, if it passes the acceptor's checks. */
  function Charge(r: Rules, p: Packet): Option<nat> {
    var src, dst := SrcAddress(p), DstAddress(p);
    if src.None? || dst.None? || !r.gate(dst.value) then None else r.owner(src.value)
  }

  /** The stack opens flows only for packets it was given, and the acceptor takes one at a time. */
  ghost predicate Enabled(s: State, e: Event) {
    match e
    case Task(event) => Tasks.Fair(s.net, event)
    case Offer(p) => s.caps.acceptor.Idle? && exists g :: g in s.net.given && g.1 == p
    case Atomic(a) => Caps.Enabled(s.caps, a) && !a.Acquire? && !a.Refuse?
  }

  /** An index past the counters would be a panic; `InRange` says that there is none. */
  ghost function Next(r: Rules, s: State, e: Event): State
    requires r.session.Valid() && Enabled(s, e)
  {
    match e
    case Task(event) => s.(net := Tasks.Next(r, s.net, event))
    case Offer(p) =>
      var idx := Charge(r, p);
      if idx.None? || idx.value >= |s.caps.counts| || s.caps.permits == 0 then s
      else s.(caps := Caps.Next(s.caps, Caps.Acquire(idx.value)), hand := Some((idx.value, p)))
    case Atomic(a) =>
      var t := s.(caps := Caps.Next(s.caps, a));
      if a.Spawn? && s.hand.Some? then t.(hand := None, started := s.started + [s.hand.value])
      else if a.Release? then t.(hand := None)
      else t
  }

  function Begin(s0: WgCore.State, peers: nat): State {
    State(Tasks.Begin(s0), Caps.Init(peers), None, [])
  }

  ghost predicate Reaches(r: Rules, s: State, es: seq<Event>, t: State)
    requires r.session.Valid()
    decreases |es|
  {
    if es == [] then s == t else Enabled(s, es[0]) && Reaches(r, Next(r, s, es[0]), es[1..], t)
  }

  // ----- the invariant

  function Peers(flows: seq<(nat, Packet)>): multiset<nat> {
    if flows == [] then multiset{} else Peers(flows[..|flows| - 1]) + multiset{flows[|flows| - 1].0}
  }

  lemma HasPeerSnoc(flows: seq<(nat, Packet)>, g: (nat, Packet), i: nat)
    ensures HasPeer(flows + [g], i) <==> HasPeer(flows, i) || g.0 == i
  {
    assert g in flows + [g];
    if h :| h in flows && h.0 == i {
      assert h in flows + [g];
    }
  }

  ghost predicate HasPeer(flows: seq<(nat, Packet)>, i: nat) {
    exists g :: g in flows && g.0 == i
  }

  lemma {:induction false} PeersMembers(flows: seq<(nat, Packet)>, i: nat)
    ensures i in Peers(flows) <==> HasPeer(flows, i)
    decreases |flows|
  {
    if flows != [] {
      var n := |flows| - 1;
      PeersMembers(flows[..n], i);
      HasPeerSnoc(flows[..n], flows[n], i);
      assert flows == flows[..n] + [flows[n]];
    }
  }

  /** A flow for a packet of that peer. */
  predicate Sound(r: Rules, n: Net, g: (nat, Packet)) {
    g in n.given && Charge(r, g.1) == Some(g.0)
  }

  /** The acceptor is busy exactly with the flow in its hand, and every guard belongs to a flow opened. */
  ghost predicate Tracks(r: Rules, s: State) {
    && (s.caps.acceptor.Idle? <==> s.hand.None?)
    && (s.hand.Some? ==> s.hand.value.0 == s.caps.acceptor.idx && Sound(r, s.net, s.hand.value))
    && (forall g :: g in s.started ==> Sound(r, s.net, g))
    && s.caps.live + s.caps.dropping <= Peers(s.started)
  }

  ghost predicate Inv(c: Tasks.Setting, s: State)
    requires c.r.session.Valid()
  {
    Tasks.Inv(c, s.net) && Caps.Inv(s.caps) && Tracks(c.r, s)
  }

  lemma GivenGrows(r: Rules, n: Net, e: Tasks.Event)
    requires r.session.Valid()
    ensures n.given <= Tasks.Next(r, n, e).given
  {
  }

  lemma TaskKeeps(c: Tasks.Setting, s: State, e: Tasks.Event)
    requires c.Valid() && Inv(c, s) && Enabled(s, Task(e))
    ensures Inv(c, Next(c.r, s, Task(e)))
  {
    Tasks.NextKeeps(c, s.net, e);
    GivenGrows(c.r, s.net, e);
    var n := Tasks.Next(c.r, s.net, e);
    forall g | Sound(c.r, s.net, g) ensures Sound(c.r, n, g) {
      assert g in n.given;
    }
  }

  /** A packet the stack was given is charged to the peer it came from. */
  lemma ChargedToSender(c: Tasks.Setting, n: Net, g: (nat, Packet))
    requires c.r.session.Valid() && Tasks.Inv(c, n) && g in n.given
    ensures Charge(c.r, g.1) == Some(g.0)
  {
    assert Tasks.Reachable(c.r, g);
  }

  lemma OfferKeeps(c: Tasks.Setting, s: State, p: Packet)
    requires c.Valid() && Inv(c, s) && Enabled(s, Offer(p))
    ensures Inv(c, Next(c.r, s, Offer(p)))
  {
    var g :| g in s.net.given && g.1 == p;
    ChargedToSender(c, s.net, g);
    if g.0 < |s.caps.counts| && s.caps.permits > 0 {
      Caps.NextKeeps(s.caps, Caps.Acquire(g.0));
    }
  }

  lemma SpawnTracks(r: Rules, s: State, t: State)
    requires Tracks(r, s) && s.caps.acceptor.Under?
    requires t == s.(caps := Caps.Next(s.caps, Caps.Spawn), hand := None, started := s.started + [s.hand.value])
    ensures Tracks(r, t)
  {
    assert t.started[..|s.started|] == s.started;
  }

  /** The acceptor goes on with the flow in its hand, or lets go of it. */
  lemma DecideTracks(r: Rules, s: State, a: Caps.Step, t: State)
    requires Tracks(r, s) && Caps.Enabled(s.caps, a) && (a.FetchAdd? || a.Undo? || a.Ignore? || a.Release?)
    requires t == s.(caps := Caps.Next(s.caps, a), hand := if a.Release? then None else s.hand)
    ensures Tracks(r, t)
  {
  }

  lemma EndTracks(r: Rules, s: State, a: Caps.Step, t: State)
    requires Tracks(r, s) && Caps.Enabled(s.caps, a) && (a.EndCount? || a.EndPermit?)
    requires t == s.(caps := Caps.Next(s.caps, a))
    ensures Tracks(r, t)
  {
    assert t.caps.live + t.caps.dropping <= s.caps.live + s.caps.dropping;
  }

  lemma AtomicTracks(r: Rules, s: State, a: Caps.Step)
    requires r.session.Valid() && Tracks(r, s) && Enabled(s, Atomic(a))
    ensures Tracks(r, Next(r, s, Atomic(a)))
  {
    var t := Next(r, s, Atomic(a));
    if a.Spawn? {
      SpawnTracks(r, s, t);
    } else if a.EndCount? || a.EndPermit? {
      EndTracks(r, s, a, t);
    } else {
      DecideTracks(r, s, a, t);
    }
  }

  lemma AtomicKeeps(c: Tasks.Setting, s: State, a: Caps.Step)
    requires c.Valid() && Inv(c, s) && Enabled(s, Atomic(a))
    ensures Inv(c, Next(c.r, s, Atomic(a))) && |Next(c.r, s, Atomic(a)).caps.counts| == |s.caps.counts|
  {
    Caps.NextKeeps(s.caps, a);
    AtomicTracks(c.r, s, a);
  }

  lemma NextKeeps(c: Tasks.Setting, s: State, e: Event)
    requires c.Valid() && Inv(c, s) && Enabled(s, e)
    ensures Inv(c, Next(c.r, s, e)) && |Next(c.r, s, e).caps.counts| == |s.caps.counts|
  {
    match e
    case Task(event) => TaskKeeps(c, s, event);
    case Offer(p) => OfferKeeps(c, s, p);
    case Atomic(a) => AtomicKeeps(c, s, a);
  }

  lemma {:induction false} ReachableInv(c: Tasks.Setting, s: State, es: seq<Event>, t: State)
    requires c.Valid() && Inv(c, s) && Reaches(c.r, s, es, t)
    ensures Inv(c, t) && |t.caps.counts| == |s.caps.counts|
    decreases |es|
  {
    if es != [] {
      NextKeeps(c, s, es[0]);
      ReachableInv(c, Next(c.r, s, es[0]), es[1..], t);
    }
  }

  // ----- what admission promises

  /** A flow offered for a given packet, which `InRange` charges to its sender, is taken up exactly while a permit is
      free. */
  lemma OfferTakes(r: Rules, s: State, g: (nat, Packet))
    requires r.session.Valid() && s.caps.acceptor.Idle? && g in s.net.given && g.0 < |s.caps.counts|
    requires Charge(r, g.1) == Some(g.0)
    ensures Enabled(s, Offer(g.1))
    ensures Next(r, s, Offer(g.1)) ==
              if s.caps.permits == 0 then s
              else s.(hand := Some(g), caps := s.caps.(permits := s.caps.permits - 1, acceptor := Caps.HasPermit(g.0)))
  {
  }

  /** And undisturbed it is started exactly while, besides, its sender has fewer than 512 flows. */
  lemma AdmitsUnlessCapped(r: Rules, s: State, g: (nat, Packet))
    requires r.session.Valid() && s.caps.acceptor.Idle? && g in s.net.given && g.0 < |s.caps.counts|
    requires Charge(r, g.1) == Some(g.0) && Caps.Inv(s.caps) && s.caps.permits > 0
    ensures Enabled(s, Offer(g.1)) && Enabled(Next(r, s, Offer(g.1)), Atomic(Caps.FetchAdd))
    ensures var t := Next(r, Next(r, s, Offer(g.1)), Atomic(Caps.FetchAdd));
            && (Enabled(t, Atomic(Caps.Spawn)) <==> s.caps.live[g.0] < 512)
            && (Enabled(t, Atomic(Caps.Undo)) <==> s.caps.live[g.0] >= 512)
            && (Enabled(t, Atomic(Caps.Spawn)) ==>
                  && Next(r, t, Atomic(Caps.Spawn)).started == s.started + [g]
                  && Next(r, t, Atomic(Caps.Spawn)).caps.live == s.caps.live + multiset{g.0})
  {
    OfferTakes(r, s, g);
    Caps.ChargeDecides(s.caps, g.0);
  }

  /** Over every run under every accepted configuration, each live guard is charged to a configured peer that sent
      a packet opening a flow: the packet's source is owned by that peer and its destination passes the gate. A peer
      never has more guards than flows opened for it. */
  lemma GuardsBelongToSenders(cfg: Config, read: Reader, c: Tasks.Setting, es: seq<Event>, t: State, i: nat)
    requires Accepted(cfg, read) && c.Valid() && c.r == Tasks.RulesOf(cfg, c.r.session)
    requires Reaches(c.r, Begin(c.s0, |cfg.peers|), es, t) && i in t.caps.live
    ensures i < |cfg.peers| == |t.caps.counts| && t.caps.live[i] <= Peers(t.started)[i]
    ensures exists g :: g in t.started && g.0 == i && g in t.net.given
                        && SrcAddress(g.1).Some? && PeerFor(TableOf(cfg.peers), SrcAddress(g.1).value) == Some(i)
                        && DstAddress(g.1).Some? && AllowedDst(cfg.address, DstAddress(g.1).value, cfg.allowPrivate)
  {
    ReachableInv(c, Begin(c.s0, |cfg.peers|), es, t);
    PeersMembers(t.started, i);
    assert t.caps.live[i] <= (t.caps.live + t.caps.dropping)[i] <= Peers(t.started)[i];
    var g :| g in t.started && g.0 == i;
    assert Sound(c.r, t.net, g);
  }

  /** A packet the stack was given always names a counter that exists, and is charged to the peer it came from. */
  lemma InRange(cfg: Config, read: Reader, c: Tasks.Setting, es: seq<Event>, t: State, g: (nat, Packet))
    requires Accepted(cfg, read) && c.Valid() && c.r == Tasks.RulesOf(cfg, c.r.session)
    requires Reaches(c.r, Begin(c.s0, |cfg.peers|), es, t) && g in t.net.given
    ensures Charge(c.r, g.1) == Some(g.0) && g.0 < |cfg.peers| == |t.caps.counts|
  {
    ReachableInv(c, Begin(c.s0, |cfg.peers|), es, t);
    ChargedToSender(c, t.net, g);
    OwnedInsideAddress(cfg, read, SrcAddress(g.1).value, g.0);
  }

  /** Run on what set-up built, it also names an upstream that exists, and is relayed through the one its sender's
      entry configures. */
  lemma SendersOwnUpstream(cfg: Config, read: Reader, c: Tasks.Setting, es: seq<Event>, t: State, g: (nat, Packet),
                           allowed: Table, upstreams: seq<Upstream.Upstream>)
    requires Accepted(cfg, read) && c.Valid() && c.r == Tasks.RulesOf(cfg, c.r.session)
    requires Built(cfg, read, c.s0, allowed, upstreams, |cfg.peers|)
    requires Reaches(c.r, Begin(c.s0, |cfg.peers|), es, t) && g in t.net.given
    ensures SrcAddress(g.1).Some? && PeerFor(allowed, SrcAddress(g.1).value) == Some(g.0)
    ensures g.0 < |upstreams| == |t.caps.counts| && UsesUpstream(cfg, read, cfg.peers[g.0], upstreams[g.0])
  {
    InRange(cfg, read, c, es, t, g);
    assert cfg.peers[..|cfg.peers|] == cfg.peers;
  }
}
