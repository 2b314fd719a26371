/** The client bridge: one UDP socket, a map from source address to a bounded channel, and one task per channel
    that writes its datagrams to a WebSocket. The loop and the tasks interleave freely. */
module Bridge {
  import opened Basics
  import opened Prefixes

  /** Capacity of a channel. */
  const QUEUE: nat := 1024

  /** A channel and the task at its receiving end. Datagrams are named by their position in `received`;
      `inflight` is the one the task is writing, and `open` says that the task still holds the receiver. */
  datatype Chan = Chan(src: SockAddr, queue: seq<nat>, inflight: Option<nat>, open: bool) {
    /** What the task will still write, in order. */
    function Pending(): seq<nat> {
      (if inflight.Some? then [inflight.value] else []) + queue
    }
  }

  /** `hand` is the sender the loop holds between looking a source up and sending its datagram on. */
  datatype State = State(
    peers: map<SockAddr, nat>, chans: seq<Chan>, hand: Option<nat>,
    received: seq<(SockAddr, Bytes)>, wire: seq<(SockAddr, nat)>)

  const START: State := State(map[], [], None, [], [])

  datatype Step =
    | Datagram(src: SockAddr, bytes: Bytes)
    | TrySend
    | Sweep(gone: set<SockAddr>)
    | Dequeue(c: nat)
    | Written(c: nat)
    | WriteFailed(c: nat)
    | TaskEnds(c: nat)

  predicate IsOpen(s: State, src: SockAddr) {
    src in s.peers && s.peers[src] < |s.chans| && s.chans[s.peers[src]].open
  }

  predicate Enabled(s: State, a: Step) {
    match a
    case Datagram(_, _) => s.hand.None?
    case TrySend => s.hand.Some? && s.hand.value < |s.chans| && s.received != []
    case Sweep(gone) => s.hand.None? && forall src :: src in gone ==> src in s.peers && !IsOpen(s, src)
    case Dequeue(c) => c < |s.chans| && s.chans[c].open && s.chans[c].inflight.None? && s.chans[c].queue != []
    case Written(c) => c < |s.chans| && s.chans[c].inflight.Some?
    case WriteFailed(c) => c < |s.chans| && s.chans[c].inflight.Some?
    case TaskEnds(c) => c < |s.chans| && s.chans[c].open && s.chans[c].inflight.None?
  }

  function SetChan(s: State, c: nat, ch: Chan): State
    requires c < |s.chans|
  {
    s.(chans := s.chans[c := ch])
  }

  function Next(s: State, a: Step): State
    requires Enabled(s, a)
  {
    match a
    case Datagram(src, bytes) =>
      var t := s.(received := s.received + [(src, bytes)]);
      if IsOpen(s, src) then t.(hand := Some(s.peers[src]))
      else
        t.(chans := s.chans + [Chan(src, [], None, true)], peers := s.peers[src := |s.chans|], hand := Some(|s.chans|))
    case TrySend =>
      var c := s.hand.value;
      var ch, t := s.chans[c], s.(hand := None);
      if ch.open && |ch.queue| < QUEUE then SetChan(t, c, ch.(queue := ch.queue + [|s.received| - 1])) else t
    case Sweep(gone) => s.(peers := s.peers - gone)
    case Dequeue(c) => SetChan(s, c, s.chans[c].(inflight := Some(s.chans[c].queue[0]), queue := s.chans[c].queue[1..]))
    case Written(c) =>
      SetChan(s, c, s.chans[c].(inflight := None)).(wire := s.wire + [(s.chans[c].src, s.chans[c].inflight.value)])
    case WriteFailed(c) => SetChan(s, c, s.chans[c].(inflight := None))
    case TaskEnds(c) => SetChan(s, c, s.chans[c].(open := false, queue := []))
  }

  ghost predicate Reaches(s: State, steps: seq<Step>, t: State)
    decreases |steps|
  {
    if steps == [] then s == t
    else Enabled(s, steps[0]) && Reaches(Next(s, steps[0]), steps[1..], t)
  }

  // ----- the loop

  class Loop {
    var peers: map<SockAddr, nat>
    var chans: seq<Chan>
    ghost var hand: Option<nat>
    ghost var received: seq<(SockAddr, Bytes)>
    ghost var wire: seq<(SockAddr, nat)>

    ghost function Abs(): State
      reads this
    {
      State(peers, chans, hand, received, wire)
    }

    constructor ()
      ensures Abs() == START
    {
      peers, chans, hand, received, wire := map[], [], None, [], [];
    }

    /** First half of handling a datagram: find the open channel of its source, or start a task with a new one. */
    method Lookup(src: SockAddr, bytes: Bytes) returns (tx: nat)
      requires hand.None?
      modifies this
      ensures Abs() == Next(old(Abs()), Datagram(src, bytes)) && hand == Some(tx)
    {
      received := received + [(src, bytes)];
      if src in peers && peers[src] < |chans| && chans[peers[src]].open {
        tx := peers[src];
      } else {
        tx := |chans|;
        chans := chans + [Chan(src, [], None, true)];
        peers := peers[src := tx];
      }
      hand := Some(tx);
    }

    /** Second half: queue it, or drop it when the channel is full or was closed meanwhile. */
    method Send(tx: nat, k: nat)
      requires Enabled(Abs(), TrySend) && hand == Some(tx) && k == |received| - 1
      modifies this
      ensures Abs() == Next(old(Abs()), TrySend)
    {
      if chans[tx].open && |chans[tx].queue| < QUEUE {
        chans := chans[tx := chans[tx].(queue := chans[tx].queue + [k])];
      }
      hand := None;
    }

    /** Drops the senders whose task has ended. */
    method Retain()
      requires hand.None?
      modifies this
      ensures var gone := set src | src in old(peers) && !IsOpen(old(Abs()), src);
              Abs() == Next(old(Abs()), Sweep(gone))
    {
      var todo := peers.Keys;
      while todo != {}
        modifies this`peers
        invariant todo <= old(peers).Keys
        invariant peers == old(peers) - (set src | src in old(peers) && src !in todo && !IsOpen(old(Abs()), src))
        decreases |todo|
      {
        var src :| src in todo;
        todo := todo - {src};
        assert src in peers;
        if !(peers[src] < |chans| && chans[peers[src]].open) { peers := peers - {src}; }
      }
    }
  }

  // ----- every reachable state

  /** Datagrams received before the one in the loop's hand. */
  function Settled(s: State): nat {
    if s.hand.Some? && s.received != [] then |s.received| - 1 else |s.received|
  }

  ghost predicate Increasing(xs: seq<nat>) {
    forall i, j :: 0 <= i < j < |xs| ==> xs[i] < xs[j]
  }

  /** Pending datagrams: from their own source, in order, each received, settled, and later than all written. */
  ghost predicate GoodPending(s: State, src: SockAddr, xs: seq<nat>) {
    && Increasing(xs)
    && (forall k :: k in xs ==> k < Settled(s) <= |s.received| && s.received[k].0 == src)
    && (forall w, k :: w in s.wire && w.0 == src && k in xs ==> w.1 < k)
  }

  ghost predicate GoodChan(s: State, ch: Chan) {
    GoodPending(s, ch.src, ch.Pending()) && |ch.queue| <= QUEUE && (!ch.open ==> ch.Pending() == [])
  }

  ghost predicate GoodWire(s: State) {
    && (forall w :: w in s.wire ==> w.1 < Settled(s) <= |s.received| && s.received[w.1].0 == w.0)
    && (forall i, j :: 0 <= i < j < |s.wire| && s.wire[i].0 == s.wire[j].0 ==> s.wire[i].1 < s.wire[j].1)
  }

  /** The map knows every live task, and every entry is a channel of its own source. */
  ghost predicate GoodMap(s: State) {
    && (forall c :: 0 <= c < |s.chans| && s.chans[c].open ==> s.chans[c].src in s.peers && s.peers[s.chans[c].src] == c)
    && (forall src :: src in s.peers ==> s.peers[src] < |s.chans| && s.chans[s.peers[src]].src == src)
  }

  ghost predicate GoodHand(s: State) {
    s.hand.Some? ==>
      s.hand.value < |s.chans| && s.received != [] && s.received[|s.received| - 1].0 == s.chans[s.hand.value].src
  }

  ghost predicate Inv(s: State) {
    GoodMap(s) && GoodHand(s) && GoodWire(s) && forall c :: 0 <= c < |s.chans| ==> GoodChan(s, s.chans[c])
  }

  /** Replacing one channel by a good one that keeps its source, and stays open or holds nothing open. */
  lemma SetChanKeeps(s: State, c: nat, ch: Chan)
    requires Inv(s) && c < |s.chans| && ch.src == s.chans[c].src && (ch.open ==> s.chans[c].open)
    requires GoodChan(s, ch)
    ensures Inv(SetChan(s, c, ch))
  {
    var t := SetChan(s, c, ch);
    forall d | 0 <= d < |t.chans| ensures GoodChan(t, t.chans[d]) {
      assert GoodChan(s, s.chans[d]);
    }
  }

  /** Receiving a datagram into the loop's hand settles nothing. */
  lemma ReceiveKeeps(s: State, t: State, ch: Chan)
    requires s.hand.None? && t.hand.Some? && t.wire == s.wire
    requires |t.received| == |s.received| + 1 && s.received <= t.received
    requires GoodChan(s, ch)
    ensures GoodChan(t, ch)
  {
    assert Settled(t) == Settled(s);
  }

  lemma DatagramKeeps(s: State, src: SockAddr, bytes: Bytes)
    requires Inv(s) && s.hand.None?
    ensures Inv(Next(s, Datagram(src, bytes)))
  {
    var t := Next(s, Datagram(src, bytes));
    forall c | 0 <= c < |t.chans| ensures GoodChan(t, t.chans[c]) {
      if c < |s.chans| {
        ReceiveKeeps(s, t, s.chans[c]);
      } else {
        assert t.chans[c].Pending() == [];
      }
    }
    assert Settled(t) == Settled(s);
    assert GoodWire(t);
    assert GoodMap(t);
  }

  /** Letting go of the datagram in hand settles it, so it can follow everything pending. */
  lemma AppendPending(s: State, src: SockAddr, xs: seq<nat>)
    requires GoodWire(s) && GoodPending(s, src, xs) && s.hand.Some?
    requires s.received != [] && s.received[|s.received| - 1].0 == src
    ensures GoodPending(s.(hand := None), src, xs + [|s.received| - 1])
  {
    var t, last := s.(hand := None), |s.received| - 1;
    var ys := xs + [last];
    assert Settled(s) == last && Settled(t) == last + 1;
    forall i, j | 0 <= i < j < |ys| ensures ys[i] < ys[j] {
      assert ys[i] == xs[i] && xs[i] in xs;
      if j < |xs| {
        assert ys[j] == xs[j];
      }
    }
    forall w, k | w in t.wire && w.0 == src && k in ys ensures w.1 < k {
      assert k in xs || k == last;
    }
  }

  /** Letting go keeps every channel good. */
  lemma LetGoKeeps(s: State)
    requires Inv(s) && Enabled(s, TrySend)
    ensures Inv(s.(hand := None))
  {
    var t := s.(hand := None);
    forall d | 0 <= d < |t.chans| ensures GoodChan(t, t.chans[d]) {
      assert GoodChan(s, s.chans[d]);
    }
    assert GoodWire(t);
  }

  /** The channel with the datagram from the loop's hand at its end. */
  lemma ExtendChan(s: State, ch: Chan)
    requires GoodWire(s) && GoodChan(s, ch) && s.hand.Some? && ch.open && |ch.queue| < QUEUE
    requires s.received != [] && s.received[|s.received| - 1].0 == ch.src
    ensures GoodChan(s.(hand := None), ch.(queue := ch.queue + [|s.received| - 1]))
  {
    var k := |s.received| - 1;
    assert ch.(queue := ch.queue + [k]).Pending() == ch.Pending() + [k];
    AppendPending(s, ch.src, ch.Pending());
  }

  lemma TrySendKeeps(s: State)
    requires Inv(s) && Enabled(s, TrySend)
    ensures Inv(Next(s, TrySend))
  {
    var c := s.hand.value;
    var ch := s.chans[c];
    LetGoKeeps(s);
    if ch.open && |ch.queue| < QUEUE {
      assert GoodChan(s, ch);
      ExtendChan(s, ch);
      SetChanKeeps(s.(hand := None), c, ch.(queue := ch.queue + [|s.received| - 1]));
    }
  }

  lemma DropPending(s: State, src: SockAddr, k: nat, xs: seq<nat>)
    requires GoodPending(s, src, [k] + xs)
    ensures GoodPending(s, src, xs) && forall x :: x in xs ==> k < x
  {
    var ys := [k] + xs;
    assert forall i :: 0 <= i < |xs| ==> xs[i] == ys[i + 1];
    assert forall x :: x in xs ==> x in ys;
    assert ys[0] == k;
  }

  lemma DequeueKeeps(s: State, c: nat)
    requires Inv(s) && Enabled(s, Dequeue(c))
    ensures Inv(Next(s, Dequeue(c)))
  {
    var ch := s.chans[c];
    var next := ch.(inflight := Some(ch.queue[0]), queue := ch.queue[1..]);
    assert GoodChan(s, ch);
    assert next.Pending() == ch.Pending();
    SetChanKeeps(s, c, next);
  }

  lemma ClearKeeps(s: State, c: nat)
    requires Inv(s) && c < |s.chans| && s.chans[c].inflight.Some?
    ensures Inv(SetChan(s, c, s.chans[c].(inflight := None)))
    ensures forall k :: k in s.chans[c].queue ==> s.chans[c].inflight.value < k
  {
    var ch := s.chans[c];
    var next := ch.(inflight := None);
    assert GoodChan(s, ch);
    DropPending(s, ch.src, ch.inflight.value, ch.queue);
    assert next.Pending() == ch.queue;
    SetChanKeeps(s, c, next);
  }

  lemma WireExtends(s: State, src: SockAddr, k: nat)
    requires GoodWire(s) && k < Settled(s) <= |s.received| && s.received[k].0 == src
    requires forall w :: w in s.wire && w.0 == src ==> w.1 < k
    ensures GoodWire(s.(wire := s.wire + [(src, k)]))
  {
    var t := s.(wire := s.wire + [(src, k)]);
    forall i, j | 0 <= i < j < |t.wire| && t.wire[i].0 == t.wire[j].0 ensures t.wire[i].1 < t.wire[j].1 {
      assert t.wire[i] == s.wire[i] && s.wire[i] in s.wire;
    }
  }

  lemma PendingKeeps(s: State, t: State, ch: Chan, src: SockAddr, k: nat)
    requires GoodChan(s, ch) && t == s.(wire := s.wire + [(src, k)])
    requires ch.src == src ==> forall x :: x in ch.Pending() ==> k < x
    ensures GoodChan(t, ch)
  {
  }

  /** Writing a datagram later than all written for its source and earlier than all pending for it. */
  lemma WireKeeps(s: State, src: SockAddr, k: nat)
    requires Inv(s) && k < Settled(s) <= |s.received| && s.received[k].0 == src
    requires forall w :: w in s.wire && w.0 == src ==> w.1 < k
    requires forall c, x :: 0 <= c < |s.chans| && s.chans[c].src == src && x in s.chans[c].Pending() ==> k < x
    ensures Inv(s.(wire := s.wire + [(src, k)]))
  {
    var t := s.(wire := s.wire + [(src, k)]);
    WireExtends(s, src, k);
    forall c | 0 <= c < |t.chans| ensures GoodChan(t, t.chans[c]) {
      PendingKeeps(s, t, s.chans[c], src, k);
    }
  }

  lemma WrittenKeeps(s: State, c: nat)
    requires Inv(s) && Enabled(s, Written(c))
    ensures Inv(Next(s, Written(c)))
  {
    var ch := s.chans[c];
    var k := ch.inflight.value;
    assert GoodChan(s, ch) && ch.Pending()[0] == k;
    assert k in ch.Pending();
    ClearKeeps(s, c);
    var m := SetChan(s, c, ch.(inflight := None));
    assert m.chans[c].Pending() == ch.queue;
    forall d, x | 0 <= d < |m.chans| && m.chans[d].src == ch.src && x in m.chans[d].Pending() ensures k < x {
      assert GoodChan(s, s.chans[d]);
      assert d == c;
    }
    WireKeeps(m, ch.src, k);
  }

  lemma SweepKeeps(s: State, gone: set<SockAddr>)
    requires Inv(s) && Enabled(s, Sweep(gone))
    ensures Inv(Next(s, Sweep(gone)))
  {
    var t := Next(s, Sweep(gone));
    forall c | 0 <= c < |t.chans| ensures GoodChan(t, t.chans[c]) {
      assert GoodChan(s, s.chans[c]);
    }
  }

  lemma NextKeeps(s: State, a: Step)
    requires Inv(s) && Enabled(s, a)
    ensures Inv(Next(s, a))
  {
    match a
    case Datagram(src, bytes) => DatagramKeeps(s, src, bytes);
    case TrySend => TrySendKeeps(s);
    case Sweep(gone) => SweepKeeps(s, gone);
    case Dequeue(c) => DequeueKeeps(s, c);
    case Written(c) => WrittenKeeps(s, c);
    case WriteFailed(c) =>
      ClearKeeps(s, c);
    case TaskEnds(c) => SetChanKeeps(s, c, s.chans[c].(open := false, queue := []));
  }

  lemma {:induction false} ReachableInv(s: State, steps: seq<Step>, t: State)
    requires Inv(s) && Reaches(s, steps, t)
    ensures Inv(t)
    decreases |steps|
  {
    if steps != [] {
      NextKeeps(s, steps[0]);
      ReachableInv(Next(s, steps[0]), steps[1..], t);
    }
  }

  // ----- what the bridge promises

  /** A receiver sees the end of its channel when nothing is queued and no sender is left, in the map or in the
      loop's hand. */
  predicate SeesEnd(s: State, c: nat)
    requires c < |s.chans|
  {
    && s.chans[c].open && s.chans[c].queue == []
    && !(s.chans[c].src in s.peers && s.peers[s.chans[c].src] == c) && s.hand != Some(c)
  }

  /** In every reachable state a source has at most one live task, its channel is the one stored for the source,
      its queue is bounded, and no live task ever sees its channel end. */
  lemma OneTaskPerSource(steps: seq<Step>, s: State)
    requires Reaches(START, steps, s)
    ensures forall c, d :: (0 <= c < |s.chans| && 0 <= d < |s.chans| && s.chans[c].open && s.chans[d].open
                            && s.chans[c].src == s.chans[d].src) ==> c == d
    ensures forall c :: 0 <= c < |s.chans| && s.chans[c].open ==>
                          && s.chans[c].src in s.peers && s.peers[s.chans[c].src] == c
                          && |s.chans[c].queue| <= QUEUE && !SeesEnd(s, c)
  {
    ReachableInv(START, steps, s);
    forall c | 0 <= c < |s.chans| ensures |s.chans[c].queue| <= QUEUE {
      assert GoodChan(s, s.chans[c]);
    }
  }

  /** Only a datagram from another source, or a sweep, touches the map at all. */
  lemma MapKeeps(s: State, a: Step, src: SockAddr)
    requires Enabled(s, a) && IsOpen(s, src)
    ensures src in Next(s, a).peers && Next(s, a).peers[src] == s.peers[src]
  {
  }

  /** Only its own end closes a channel. */
  lemma OpenKeeps(s: State, a: Step, c: nat)
    requires Enabled(s, a) && c < |s.chans| && s.chans[c].open && !(a.TaskEnds? && a.c == c)
    ensures c < |Next(s, a).chans| && Next(s, a).chans[c].open
  {
  }

  /** No step takes a live task's channel out of the map: sweeps and replacements discard closed channels only. */
  lemma OnlyClosedDiscarded(s: State, a: Step, src: SockAddr)
    requires Enabled(s, a) && IsOpen(s, src) && !(a.TaskEnds? && a.c == s.peers[src])
    ensures IsOpen(Next(s, a), src) && Next(s, a).peers[src] == s.peers[src]
  {
    MapKeeps(s, a, src);
    OpenKeeps(s, a, s.peers[src]);
  }

  /** What is written for a source over the whole run, across all the tasks it ever had, is a subsequence of what
      was received from it: nothing invented, nothing reordered, nothing twice. */
  lemma WrittenInOrder(steps: seq<Step>, s: State)
    requires Reaches(START, steps, s)
    ensures forall w :: w in s.wire ==> w.1 < |s.received| && s.received[w.1].0 == w.0
    ensures forall i, j :: 0 <= i < j < |s.wire| && s.wire[i].0 == s.wire[j].0 ==> s.wire[i].1 < s.wire[j].1
  {
    ReachableInv(START, steps, s);
  }

  /** What a live task has pending is older than the datagram in the loop's hand. */
  lemma PendingOlder(s: State, c: nat)
    requires Inv(s) && s.hand == Some(c) && c < |s.chans|
    ensures s.received != [] && forall k :: k in s.chans[c].Pending() ==> k < |s.received| - 1
  {
    assert GoodChan(s, s.chans[c]);
  }

  lemma SendAppends(s: State, c: nat)
    requires Enabled(s, TrySend) && s.hand == Some(c)
    requires s.chans[c].open && |s.chans[c].queue| < QUEUE
    ensures Next(s, TrySend).chans[c].Pending() == s.chans[c].Pending() + [|s.received| - 1]
  {
    var ch, k := s.chans[c], |s.received| - 1;
    assert Next(s, TrySend).chans[c] == ch.(queue := ch.queue + [k]);
    assert ch.(queue := ch.queue + [k]).Pending() == ch.Pending() + [k];
  }

  /** A datagram handed to a live task with room in its queue is never dropped by the loop, and comes after
      everything its source still has pending. */
  lemma SendQueues(steps: seq<Step>, s: State, c: nat)
    requires Reaches(START, steps, s) && Enabled(s, TrySend) && s.hand == Some(c)
    requires s.chans[c].open && |s.chans[c].queue| < QUEUE
    ensures Next(s, TrySend).chans[c].Pending() == s.chans[c].Pending() + [|s.received| - 1]
    ensures forall k :: k in s.chans[c].Pending() ==> k < |s.received| - 1
  {
    ReachableInv(START, steps, s);
    PendingOlder(s, c);
    SendAppends(s, c);
  }
}
