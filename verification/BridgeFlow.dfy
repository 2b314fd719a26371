/** Nothing lost: what the bridge does with a source's datagrams while no queue is full and no connection fails. */
module BridgeFlow {
  import opened Basics
  import opened Prefixes
  import opened Bridge

  /** The datagrams from that source among the first `n` received. */
  function Sources(received: seq<(SockAddr, Bytes)>, src: SockAddr, n: nat): seq<nat>
    requires n <= |received|
  {
    if n == 0 then [] else Sources(received, src, n - 1) + if received[n - 1].0 == src then [n - 1] else []
  }

  /** The datagrams written for it, in the order of writing. */
  function WireOf(wire: seq<(SockAddr, nat)>, src: SockAddr): seq<nat> {
    if wire == [] then []
    else
      var n := |wire| - 1;
      WireOf(wire[..n], src) + if wire[n].0 == src then [wire[n].1] else []
  }

  /** Those its task still has to write. */
  function PendingOf(s: State, src: SockAddr): seq<nat> {
    if src in s.peers && s.peers[src] < |s.chans| then s.chans[s.peers[src]].Pending() else []
  }

  /** The step loses nothing of the source: it has room in its open channel, and its task neither fails a write nor
      ends. */
  predicate Spares(s: State, a: Step, src: SockAddr)
    requires Enabled(s, a)
  {
    match a
    case TrySend => s.chans[s.hand.value].src == src ==> s.chans[s.hand.value].open && |s.chans[s.hand.value].queue| < 1024
    case WriteFailed(c) => s.chans[c].src != src
    case TaskEnds(c) => s.chans[c].src != src
    case _ => true
  }

  ghost predicate SparedRun(s: State, steps: seq<Step>, src: SockAddr)
    decreases |steps|
  {
    steps != [] ==> Enabled(s, steps[0]) && Spares(s, steps[0], src) && SparedRun(Next(s, steps[0]), steps[1..], src)
  }

  ghost predicate Intact(s: State, src: SockAddr) {
    && (forall c :: 0 <= c < |s.chans| && s.chans[c].src == src ==> s.chans[c].open)
    && Settled(s) <= |s.received|
    && WireOf(s.wire, src) + PendingOf(s, src) == Sources(s.received, src, Settled(s))
  }

  lemma {:induction false} SourcesGrow(received: seq<(SockAddr, Bytes)>, more: seq<(SockAddr, Bytes)>, src: SockAddr, n: nat)
    requires n <= |received| && received <= more
    ensures Sources(more, src, n) == Sources(received, src, n)
  {
    if n > 0 {
      SourcesGrow(received, more, src, n - 1);
    }
  }

  lemma WireGrows(wire: seq<(SockAddr, nat)>, w: (SockAddr, nat), src: SockAddr)
    ensures WireOf(wire + [w], src) == WireOf(wire, src) + if w.0 == src then [w.1] else []
  {
    assert (wire + [w])[..|wire|] == wire;
  }

  /** The source's channel is the one in the map. */
  lemma OnlyChannel(s: State, src: SockAddr, c: nat)
    requires GoodMap(s) && Intact(s, src) && c < |s.chans| && s.chans[c].src == src
    ensures src in s.peers && s.peers[src] == c && IsOpen(s, src)
  {
  }

  lemma DatagramIntact(s: State, a: Step, src: SockAddr)
    requires GoodMap(s) && Intact(s, src) && a.Datagram? && Enabled(s, a)
    ensures Intact(Next(s, a), src)
  {
    var t := Next(s, a);
    SourcesGrow(s.received, t.received, src, Settled(s));
    assert Settled(t) == Settled(s);
    if src in s.peers {
      assert s.chans[s.peers[src]].src == src;
    }
  }

  /** A channel of another source may be replaced. */
  lemma OtherChannel(s: State, c: nat, ch: Chan, src: SockAddr)
    requires GoodMap(s) && Intact(s, src) && c < |s.chans| && ch.src == s.chans[c].src != src
    ensures PendingOf(SetChan(s, c, ch), src) == PendingOf(s, src)
    ensures forall d :: 0 <= d < |s.chans| && SetChan(s, c, ch).chans[d].src == src ==> SetChan(s, c, ch).chans[d].open
  {
    if src in s.peers { assert s.chans[s.peers[src]].src == src; }
  }

  /** The source's own may be replaced by an open one, and then holds what is pending. */
  lemma OwnChannel(s: State, c: nat, ch: Chan, src: SockAddr)
    requires GoodMap(s) && Intact(s, src) && c < |s.chans| && ch.src == s.chans[c].src == src && ch.open
    ensures PendingOf(s, src) == s.chans[c].Pending() && PendingOf(SetChan(s, c, ch), src) == ch.Pending()
    ensures forall d :: 0 <= d < |s.chans| && SetChan(s, c, ch).chans[d].src == src ==> SetChan(s, c, ch).chans[d].open
  {
    OnlyChannel(s, src, c);
  }

  lemma SettleIntact(s: State, src: SockAddr)
    requires GoodMap(s) && GoodHand(s) && Intact(s, src) && Enabled(s, TrySend) && Spares(s, TrySend, src)
    ensures Intact(Next(s, TrySend), src)
  {
    var t, c, k := Next(s, TrySend), s.hand.value, |s.received| - 1;
    var ch := s.chans[c];
    var more := ch.(queue := ch.queue + [k]);
    assert Settled(s) == k && Settled(t) == k + 1 && s.received[k].0 == ch.src;
    assert Sources(t.received, src, k + 1) == Sources(s.received, src, k) + if ch.src == src then [k] else [];
    if ch.src == src {
      OwnChannel(s, c, more, src);
      assert more.Pending() == ch.Pending() + [k];
    } else {
      OtherChannel(s, c, more, src);
      OtherChannel(s, c, ch, src);
    }
  }

  lemma DequeueIntact(s: State, c: nat, src: SockAddr)
    requires GoodMap(s) && Intact(s, src) && Enabled(s, Dequeue(c)) && s.chans[c].src == src
    ensures Intact(Next(s, Dequeue(c)), src)
  {
    var ch := s.chans[c];
    var next := ch.(inflight := Some(ch.queue[0]), queue := ch.queue[1..]);
    OwnChannel(s, c, next, src);
    assert next.Pending() == ch.Pending();
  }

  lemma WrittenIntact(s: State, c: nat, src: SockAddr)
    requires GoodMap(s) && Intact(s, src) && Enabled(s, Written(c)) && s.chans[c].src == src
    ensures Intact(Next(s, Written(c)), src)
  {
    var ch := s.chans[c];
    OwnChannel(s, c, ch.(inflight := None), src);
    WireGrows(s.wire, (src, ch.inflight.value), src);
    assert ch.Pending() == [ch.inflight.value] + ch.queue && ch.(inflight := None).Pending() == ch.queue;
    HeadMoves(WireOf(s.wire, src), ch.inflight.value, ch.queue);
  }

  lemma HeadMoves(done: seq<nat>, k: nat, rest: seq<nat>)
    ensures done + ([k] + rest) == done + [k] + rest
  {
  }

  /** A step of another source's task. */
  lemma OtherTaskIntact(s: State, c: nat, ch: Chan, src: SockAddr)
    requires GoodMap(s) && Intact(s, src) && c < |s.chans| && ch.src == s.chans[c].src != src
    ensures Intact(SetChan(s, c, ch), src)
  {
    OtherChannel(s, c, ch, src);
  }

  lemma OtherWrittenIntact(s: State, c: nat, src: SockAddr)
    requires GoodMap(s) && Intact(s, src) && Enabled(s, Written(c)) && s.chans[c].src != src
    ensures Intact(Next(s, Written(c)), src)
  {
    OtherTaskIntact(s, c, s.chans[c].(inflight := None), src);
    OtherWireIntact(SetChan(s, c, s.chans[c].(inflight := None)), (s.chans[c].src, s.chans[c].inflight.value), src);
  }

  lemma OtherWireIntact(s: State, w: (SockAddr, nat), src: SockAddr)
    requires Intact(s, src) && w.0 != src
    ensures Intact(s.(wire := s.wire + [w]), src)
  {
    WireGrows(s.wire, w, src);
  }

  lemma SweepIntact(s: State, a: Step, src: SockAddr)
    requires GoodMap(s) && Intact(s, src) && a.Sweep? && Enabled(s, a)
    ensures Intact(Next(s, a), src)
  {
    if src in s.peers { OnlyChannel(s, src, s.peers[src]); }
  }

  lemma NextIntact(s: State, a: Step, src: SockAddr)
    requires GoodMap(s) && GoodHand(s) && Intact(s, src) && Enabled(s, a) && Spares(s, a, src)
    ensures Intact(Next(s, a), src)
  {
    match a
    case Datagram(_, _) => DatagramIntact(s, a, src);
    case TrySend => SettleIntact(s, src);
    case Sweep(_) => SweepIntact(s, a, src);
    case Dequeue(c) =>
      if s.chans[c].src == src {
        DequeueIntact(s, c, src);
      } else {
        OtherTaskIntact(s, c, Next(s, a).chans[c], src);
      }
    case Written(c) =>
      if s.chans[c].src == src {
        WrittenIntact(s, c, src);
      } else {
        OtherWrittenIntact(s, c, src);
      }
    case WriteFailed(c) => OtherTaskIntact(s, c, Next(s, a).chans[c], src);
    case TaskEnds(c) => OtherTaskIntact(s, c, Next(s, a).chans[c], src);
  }

  lemma {:induction false} RunIntact(s: State, steps: seq<Step>, t: State, src: SockAddr)
    requires Inv(s) && Intact(s, src) && Reaches(s, steps, t) && SparedRun(s, steps, src)
    ensures Intact(t, src)
    decreases |steps|
  {
    if steps != [] {
      NextKeeps(s, steps[0]);
      NextIntact(s, steps[0], src);
      RunIntact(Next(s, steps[0]), steps[1..], t, src);
    }
  }

  /** Over every run in which the source's queue is never full, no write of its task fails and the task does not end,
      what was written for it and what is pending are together exactly what was received from it and let go of by the
      loop, in order. */
  lemma NothingLost(steps: seq<Step>, s: State, src: SockAddr)
    requires Reaches(START, steps, s) && SparedRun(START, steps, src)
    ensures Settled(s) <= |s.received|
    ensures WireOf(s.wire, src) + PendingOf(s, src) == Sources(s.received, src, Settled(s))
  {
    RunIntact(START, steps, s, src);
  }

  /** The only ways a datagram is lost: a full or closed channel loses the one in the loop's hand, a failed write the
      one in flight, and the end of a task what is still queued; nothing of it reaches the wire. */
  lemma Losses(s: State, c: nat)
    requires c < |s.chans|
    ensures Enabled(s, TrySend) && s.hand == Some(c) && (!s.chans[c].open || |s.chans[c].queue| >= 1024) ==>
              Next(s, TrySend) == s.(hand := None)
    ensures Enabled(s, WriteFailed(c)) ==>
              var t := Next(s, WriteFailed(c));
              t == s.(chans := t.chans) && |t.chans| == |s.chans|
              && t.chans[c].Pending() == s.chans[c].Pending()[1..] && (t.chans[c].open <==> s.chans[c].open)
    ensures Enabled(s, TaskEnds(c)) ==>
              var t := Next(s, TaskEnds(c));
              t == s.(chans := t.chans) && |t.chans| == |s.chans| && t.chans[c].Pending() == [] && !t.chans[c].open
    ensures forall a, d :: a in {WriteFailed(c), TaskEnds(c)} && Enabled(s, a) && 0 <= d < |s.chans| && d != c ==>
              Next(s, a).chans[d] == s.chans[d]
  {
  }

  /** A task can always go on: what is queued can be dequeued, what is dequeued written, and writing puts that very
      datagram on the wire. */
  lemma TaskGoesOn(s: State, c: nat)
    requires Inv(s) && c < |s.chans| && s.chans[c].Pending() != []
    ensures s.chans[c].open
    ensures s.chans[c].inflight.Some? ==>
              && Enabled(s, Written(c))
              && Next(s, Written(c)).wire == s.wire + [(s.chans[c].src, s.chans[c].Pending()[0])]
    ensures s.chans[c].inflight.None? ==>
              Enabled(s, Dequeue(c)) && Next(s, Dequeue(c)).chans[c].inflight == Some(s.chans[c].Pending()[0])
  {
    assert GoodChan(s, s.chans[c]);
  }
}
