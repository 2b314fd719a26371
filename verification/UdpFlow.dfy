/** One UDP flow of a peer: relayed through a SOCKS5 association, or, for name lookups, carried over TCP when the
    proxy has no UDP or a resolver is forced. What the network does is a script the flow runs against. */
module UdpFlow {
  import opened Basics
  import opened Prefixes
  import opened Octets
  import opened Socks

  /** An IPv4 header and a UDP header. */
  const OVERHEAD: nat := 28
  const DNS_IDLE: nat := 10_000
  const DNS_PORT: nat := 53
  /** Most that one read of a lookup returns. */
  const QUERY_MAX: nat := 1500

  function Cap(mtu: U16): nat {
    if mtu < OVERHEAD then 0 else mtu - OVERHEAD
  }

  /** What fits is what leaves room for 28 bytes of headers, and a datagram without data. */
  lemma CapExactly(mtu: U16, size: nat)
    ensures size <= Cap(mtu) <==> size + 28 <= mtu || size == 0
  {
  }

  // ----- the relay loop

  datatype What =
    | PeerReady(sends: bool)
    | PeerFails
    | RelayReady(reply: Bytes, writes: bool)
    | RelayFails
    | ControlReady

  /** Something happening `after` milliseconds without anything else. */
  datatype Event = Event(after: nat, what: What)

  /** `incoming` is what reads of the peer's stream will return; `done` counts the events handled in full. */
  datatype Pumped = Pumped(incoming: seq<Bytes>, sent: seq<Bytes>, delivered: seq<Bytes>, done: nat, over: bool)

  function Reply(cap: nat, reply: Bytes): Option<Bytes> {
    match UnwrapUdp(reply)
    case None => None
    case Some(body) => if |body| > cap then None else Some(body)
  }

  function PumpOne(dst: SockAddr, cap: nat, idle: nat, s: Pumped, e: Event): Pumped {
    var next, over := s.(done := s.done + 1), s.(over := true);
    if e.after > idle then over
    else
      match e.what
      case PeerReady(sends) =>
        if s.incoming == [] then over
        else
          var data := s.incoming[0];
          if data == [] || !sends then over.(incoming := s.incoming[1..])
          else next.(incoming := s.incoming[1..], sent := s.sent + [Datagram(0, 0, dst, data)])
      case RelayReady(reply, writes) =>
        var body := Reply(cap, reply);
        if body.None? then next
        else if !writes then over
        else next.(delivered := s.delivered + [body.value])
      case _ => over
  }

  function Pump(dst: SockAddr, cap: nat, idle: nat, s: Pumped, events: seq<Event>, n: nat): Pumped
    requires n <= |events|
  {
    if n == 0 then s
    else
      var before := Pump(dst, cap, idle, s, events, n - 1);
      if before.over then before else PumpOne(dst, cap, idle, before, events[n - 1])
  }

  function Fresh(incoming: seq<Bytes>): Pumped {
    Pumped(incoming, [], [], 0, false)
  }

  /** The bodies of the replies among the first `n` events that unwrap and fit. */
  function Replies(cap: nat, events: seq<Event>, n: nat): seq<Bytes>
    requires n <= |events|
  {
    if n == 0 then []
    else
      var what := events[n - 1].what;
      var body := if what.RelayReady? then Reply(cap, what.reply) else None;
      Replies(cap, events, n - 1) + if body.Some? then [body.value] else []
  }

  /** Everything read so far was sent, wrapped and in order, but for at most one datagram the end of the relay lost. */
  ghost predicate SentInOrder(dst: SockAddr, incoming: seq<Bytes>, s: Pumped) {
    && |s.sent| <= |incoming| && (forall i :: 0 <= i < |s.sent| ==> s.sent[i] == Datagram(0, 0, dst, incoming[i]))
    && (s.incoming == incoming[|s.sent|..]
        || (s.over && |s.sent| < |incoming| && s.incoming == incoming[|s.sent| + 1..]))
  }

  lemma OneKeepsOrder(dst: SockAddr, cap: nat, idle: nat, incoming: seq<Bytes>, s: Pumped, e: Event)
    requires SentInOrder(dst, incoming, s) && !s.over
    ensures SentInOrder(dst, incoming, PumpOne(dst, cap, idle, s, e))
  {
    if s.incoming != [] {
      var k := |s.sent|;
      assert s.incoming == incoming[k..];
      assert s.incoming[0] == incoming[k] && s.incoming[1..] == incoming[k + 1..];
    }
  }

  lemma OneDelivers(dst: SockAddr, cap: nat, idle: nat, s: Pumped, events: seq<Event>)
    requires !s.over && s.done < |events| && s.delivered == Replies(cap, events, s.done)
    ensures var t := PumpOne(dst, cap, idle, s, events[s.done]);
            && t.done == (if t.over then s.done else s.done + 1)
            && t.delivered == Replies(cap, events, t.done)
  {
    assert s.delivered + [] == s.delivered;
  }

  /** Until it ends, the relay has sent every datagram read, wrapped and in order; ending it loses at most one. And
      it has delivered, in order, exactly the replies before its end that unwrap and fit. */
  lemma {:induction false} PumpsExactly(dst: SockAddr, cap: nat, idle: nat, incoming: seq<Bytes>, events: seq<Event>, n: nat)
    requires n <= |events|
    ensures var s := Pump(dst, cap, idle, Fresh(incoming), events, n);
            && s.done <= n && (if s.over then s.done < n else s.done == n)
            && SentInOrder(dst, incoming, s) && s.delivered == Replies(cap, events, s.done)
  {
    if n > 0 {
      PumpsExactly(dst, cap, idle, incoming, events, n - 1);
      var s := Pump(dst, cap, idle, Fresh(incoming), events, n - 1);
      if !s.over {
        OneKeepsOrder(dst, cap, idle, incoming, s, events[n - 1]);
        OneDelivers(dst, cap, idle, s, events);
      }
    }
  }

  /** The reply is an unfragmented datagram from some address, and its data fits. */
  ghost predicate Carries(cap: nat, reply: Bytes, body: Bytes) {
    |body| <= cap && exists r0, r1, a :: reply == Datagram(r0, r1, a, body)
  }

  lemma ReplyExactly(cap: nat, reply: Bytes, body: Bytes)
    ensures Reply(cap, reply) == Some(body) <==> Carries(cap, reply, body)
  {
    UnwrapsExactly(reply, body);
  }

  /** Number of times the peer's stream is read in the first `n` events. */
  function Reads(events: seq<Event>, n: nat): nat
    requires n <= |events|
  {
    if n == 0 then 0 else Reads(events, n - 1) + if events[n - 1].what.PeerReady? then 1 else 0
  }

  /** The relay ends at event `k`, if not before: at a silence longer than the idle time, a read that fails or is
      empty, a datagram that cannot be sent, a reply that fits and cannot be written, a failure of the relay, or
      anything on the control connection. */
  ghost predicate EndsAt(cap: nat, idle: nat, incoming: seq<Bytes>, events: seq<Event>, k: nat)
    requires k < |events|
  {
    events[k].after > idle ||
    match events[k].what
    case PeerReady(sends) =>
      var j := Reads(events, k);
      j >= |incoming| || incoming[j] == [] || !sends
    case RelayReady(reply, writes) => !writes && exists body :: Carries(cap, reply, body)
    case _ => true
  }

  ghost predicate Uneventful(cap: nat, idle: nat, incoming: seq<Bytes>, events: seq<Event>, n: nat)
    requires n <= |events|
  {
    forall k :: 0 <= k < n ==> !EndsAt(cap, idle, incoming, events, k)
  }

  lemma OneEnds(dst: SockAddr, cap: nat, idle: nat, incoming: seq<Bytes>, s: Pumped, events: seq<Event>)
    requires !s.over && s.done < |events|
    requires |s.sent| == Reads(events, s.done) <= |incoming| && s.incoming == incoming[|s.sent|..]
    ensures var t := PumpOne(dst, cap, idle, s, events[s.done]);
            && (t.over <==> EndsAt(cap, idle, incoming, events, s.done))
            && |t.sent| == Reads(events, t.done)
            && (!t.over ==> |t.sent| <= |incoming| && t.incoming == incoming[|t.sent|..])
  {
    var e := events[s.done];
    if e.what.RelayReady? {
      var reply := e.what.reply;
      if Reply(cap, reply).Some? { ReplyExactly(cap, reply, Reply(cap, reply).value); }
      if body :| Carries(cap, reply, body) { ReplyExactly(cap, reply, body); }
    }
  }

  /** Where the relay stands after the first `n` events. */
  ghost predicate RanTo(cap: nat, idle: nat, incoming: seq<Bytes>, events: seq<Event>, s: Pumped, n: nat)
    requires n <= |events|
  {
    && s.done <= n && Uneventful(cap, idle, incoming, events, s.done)
    && (if s.over then s.done < n && EndsAt(cap, idle, incoming, events, s.done) else s.done == n)
    && |s.sent| == Reads(events, s.done)
    && (!s.over ==> |s.sent| <= |incoming| && s.incoming == incoming[|s.sent|..])
  }

  lemma RelayGoesOn(dst: SockAddr, cap: nat, idle: nat, incoming: seq<Bytes>, events: seq<Event>, s: Pumped, n: nat)
    requires n < |events| && RanTo(cap, idle, incoming, events, s, n)
    ensures RanTo(cap, idle, incoming, events, if s.over then s else PumpOne(dst, cap, idle, s, events[n]), n + 1)
  {
    if !s.over {
      OneEnds(dst, cap, idle, incoming, s, events);
    }
  }

  lemma {:induction false} RelayRuns(dst: SockAddr, cap: nat, idle: nat, incoming: seq<Bytes>, events: seq<Event>, n: nat)
    requires n <= |events|
    ensures RanTo(cap, idle, incoming, events, Pump(dst, cap, idle, Fresh(incoming), events, n), n)
  {
    if n > 0 {
      RelayRuns(dst, cap, idle, incoming, events, n - 1);
      RelayGoesOn(dst, cap, idle, incoming, events, Pump(dst, cap, idle, Fresh(incoming), events, n - 1), n - 1);
    }
  }

  /** The relay is over exactly if one of those events has happened, and it ended at the first of them; every read
      before that was sent. A fragment or a reply too large never ends it. */
  lemma RelayEndsExactly(dst: SockAddr, cap: nat, idle: nat, incoming: seq<Bytes>, events: seq<Event>, n: nat)
    requires n <= |events|
    ensures var s := Pump(dst, cap, idle, Fresh(incoming), events, n);
            && (s.over <==> exists k :: 0 <= k < n && EndsAt(cap, idle, incoming, events, k))
            && s.done <= n && Uneventful(cap, idle, incoming, events, s.done)
            && (if s.over then s.done < n && EndsAt(cap, idle, incoming, events, s.done) else s.done == n)
            && |s.sent| == Reads(events, s.done)
  {
    RelayRuns(dst, cap, idle, incoming, events, n);
  }

  /** A proxy that strips the header sees the peer's own bytes. */
  lemma SentUnwraps(dst: SockAddr, cap: nat, idle: nat, incoming: seq<Bytes>, events: seq<Event>, n: nat, i: nat)
    requires n <= |events| && i < |Pump(dst, cap, idle, Fresh(incoming), events, n).sent|
    ensures i < |incoming|
    ensures UnwrapUdp(Pump(dst, cap, idle, Fresh(incoming), events, n).sent[i]) == Some(incoming[i])
  {
    PumpsExactly(dst, cap, idle, incoming, events, n);
    UnwrapWrapped(dst, incoming[i]);
  }

  /** A silence longer than the idle time ends the relay, however many events follow. */
  lemma {:induction false} IdleEnds(dst: SockAddr, cap: nat, idle: nat, s: Pumped, events: seq<Event>, k: nat, n: nat)
    requires k < n <= |events| && events[k].after > idle
    ensures Pump(dst, cap, idle, s, events, n).over
    ensures Pump(dst, cap, idle, s, events, n).sent == Pump(dst, cap, idle, s, events, k).sent
    ensures Pump(dst, cap, idle, s, events, n).delivered == Pump(dst, cap, idle, s, events, k).delivered
    decreases n
  {
    if k + 1 < n {
      IdleEnds(dst, cap, idle, s, events, k, n - 1);
    }
  }

  // ----- lookups over TCP

  /** A query with its length before it. */
  function Frame(query: Bytes): Bytes
    requires |query| < 0x1_0000
  {
    Be(|query|, 2) + query
  }

  /** The message a two-byte length announces, if all of it arrives. */
  function Deframe(b: Bytes): Option<Bytes> {
    if |b| < 2 then None
    else
      var n := FromBe(b[..2]);
      if |b| < 2 + n then None else Some(b[2..2 + n])
  }

  lemma FrameDeframes(query: Bytes, rest: Bytes)
    requires |query| < 0x1_0000
    ensures Deframe(Frame(query) + rest) == Some(query)
  {
    Widths();
    FromBeOfBe(|query|, 2);
    Cut(Be(|query|, 2), query, rest);
  }

  lemma TwoOctets(n: nat)
    requires n < 0x1_0000
    ensures Be(n, 2) == [n / 256, n % 256]
  {
    assert Be(n / 256, 1) == [n / 256];
  }

  lemma FramedOnly(b: Bytes) returns (rest: Bytes)
    requires Deframe(b).Some?
    ensures var message := Deframe(b).value;
            |message| < 0x1_0000 && b == [|message| / 256, |message| % 256] + message + rest
  {
    Widths();
    var n := FromBe(b[..2]);
    BeOfFromBe(b[..2]);
    TwoOctets(n);
    rest := b[2 + n..];
    assert b == b[..2] + b[2..2 + n] + rest;
  }

  /** A message is read exactly from its length in two bytes, all of it, and anything after. */
  lemma DeframesExactly(b: Bytes, message: Bytes)
    ensures Deframe(b) == Some(message) <==>
              |message| < 0x1_0000 && exists rest: Bytes :: b == [|message| / 256, |message| % 256] + message + rest
  {
    if Deframe(b) == Some(message) {
      var after := FramedOnly(b);
      assert b == [|message| / 256, |message| % 256] + message + after;
    }
    if |message| < 0x1_0000 {
      TwoOctets(|message|);
      if rest: Bytes :| b == [|message| / 256, |message| % 256] + message + rest {
        FrameDeframes(message, rest);
        assert b == Frame(message) + rest;
      }
    }
  }

  function SetTc(b: Byte): Byte {
    if b / 2 % 2 == 1 then b else b + 2
  }

  /** An answer over the cap is cut, after its TC bit is set where it has one. */
  function Clip(answer: Bytes, cap: nat): Bytes {
    if |answer| <= cap then answer
    else (if |answer| >= 3 then answer[2 := SetTc(answer[2])] else answer)[..cap]
  }

  /** The third byte of a message: QR, Opcode, AA, TC and RD from the top. */
  predicate Tc(message: Bytes) {
    |message| >= 3 && message[2] / 2 % 2 == 1
  }

  /** What is written fits, is the answer itself if that fits, and otherwise differs from its prefix in the TC bit
      alone, which is then set exactly if the cap leaves room for it. */
  lemma ClipsExactly(answer: Bytes, cap: nat)
    ensures |Clip(answer, cap)| <= cap && (|answer| <= cap <==> Clip(answer, cap) == answer)
    ensures |answer| > cap ==>
              var r := Clip(answer, cap);
              && |r| == cap
              && (forall i :: 0 <= i < cap && i != 2 ==> r[i] == answer[i])
              && (cap >= 3 ==> r[2] / 4 == answer[2] / 4 && r[2] % 2 == answer[2] % 2)
              && (Tc(r) <==> cap >= 3)
  {
    if |answer| > cap && cap >= 3 {
      SetTcOnly(answer[2]);
    }
  }

  lemma SetTcOnly(b: Byte)
    ensures SetTc(b) / 2 % 2 == 1 && SetTc(b) / 4 == b / 4 && SetTc(b) % 2 == b % 2
  {
  }

  /** One lookup: whether the dial works, what arrives before the timeout, whether the answer can be written. */
  datatype Exchange = Exchange(dials: bool, arrives: Bytes, writes: bool)

  /** `taken` counts the reads of the stream. */
  datatype Looked = Looked(taken: nat, asked: seq<Bytes>, written: seq<Bytes>, over: bool)

  predicate Readable(incoming: seq<Bytes>, script: seq<Exchange>) {
    |incoming| <= |script| && forall i :: 0 <= i < |incoming| ==> |incoming[i]| <= QUERY_MAX
  }

  function LookOne(cap: nat, s: Looked, query: Bytes, x: Exchange): Looked
    requires |query| <= QUERY_MAX
  {
    var next := s.(taken := s.taken + 1);
    if query == [] then next.(over := true)
    else if !x.dials then next
    else
      var asked := next.(asked := s.asked + [Frame(query)]);
      match Deframe(x.arrives)
      case None => asked
      case Some(answer) => if x.writes then asked.(written := s.written + [Clip(answer, cap)]) else asked.(over := true)
  }

  /** Lookups for the first `n` reads, until one is empty or an answer cannot be written. */
  function LookUp(cap: nat, incoming: seq<Bytes>, script: seq<Exchange>, n: nat): Looked
    requires Readable(incoming, script) && n <= |incoming|
  {
    if n == 0 then Looked(0, [], [], false)
    else
      var before := LookUp(cap, incoming, script, n - 1);
      if before.over then before else LookOne(cap, before, incoming[n - 1], script[n - 1])
  }

  /** The queries among the first `k` reads that a connection was made for. */
  function Dialled(incoming: seq<Bytes>, script: seq<Exchange>, k: nat): seq<Bytes>
    requires k <= |incoming| <= |script|
  {
    if k == 0 then []
    else Dialled(incoming, script, k - 1) + if incoming[k - 1] != [] && script[k - 1].dials then [incoming[k - 1]] else []
  }

  /** What the peer gets for a read: the clipped answer of an exchange that dialled, arrived whole and can be written
      back. */
  function Written(cap: nat, query: Bytes, x: Exchange): Option<Bytes> {
    if query == [] || !x.dials || !x.writes then None
    else
      match Deframe(x.arrives)
      case None => None
      case Some(answer) => Some(Clip(answer, cap))
  }

  function Answers(cap: nat, incoming: seq<Bytes>, script: seq<Exchange>, k: nat): seq<Bytes>
    requires k <= |incoming| <= |script|
  {
    if k == 0 then []
    else
      var last := Written(cap, incoming[k - 1], script[k - 1]);
      Answers(cap, incoming, script, k - 1) + if last.Some? then [last.value] else []
  }

  /** Each frame is read as the query at its place. */
  ghost predicate Asks(frames: seq<Bytes>, queries: seq<Bytes>) {
    |frames| == |queries| && forall i :: 0 <= i < |frames| ==> Deframe(frames[i]) == Some(queries[i])
  }

  lemma AsksMore(frames: seq<Bytes>, queries: seq<Bytes>, query: Bytes)
    requires Asks(frames, queries) && |query| <= QUERY_MAX
    ensures Asks(frames + [Frame(query)], queries + [query])
  {
    FrameDeframes(query, []);
    assert Frame(query) + [] == Frame(query);
  }

  lemma LookOneAsks(cap: nat, s: Looked, query: Bytes, x: Exchange, queries: seq<Bytes>)
    requires |query| <= QUERY_MAX && Asks(s.asked, queries)
    ensures Asks(LookOne(cap, s, query, x).asked, queries + if query != [] && x.dials then [query] else [])
  {
    AsksMore(s.asked, queries, query);
    assert queries + [] == queries;
  }

  lemma LookOneWrites(cap: nat, s: Looked, query: Bytes, x: Exchange)
    requires |query| <= QUERY_MAX
    ensures var w := Written(cap, query, x);
            LookOne(cap, s, query, x).written == s.written + if w.Some? then [w.value] else []
    ensures LookOne(cap, s, query, x).taken == s.taken + 1
    ensures !s.over && LookOne(cap, s, query, x).over ==> query == [] || !x.writes
  {
  }

  /** The resolver reads each frame as the query it was made from, in order and with none left out of those a
      connection was made for; the peer gets, in order, exactly the clipped answers that arrived whole and could be
      written; and only an empty read or a failed write ends the lookups. */
  lemma {:induction false} LooksUpExactly(cap: nat, incoming: seq<Bytes>, script: seq<Exchange>, n: nat)
    requires Readable(incoming, script) && n <= |incoming|
    ensures var l := LookUp(cap, incoming, script, n);
            && l.taken <= n && (!l.over ==> l.taken == n)
            && (l.over ==> l.taken > 0 && (incoming[l.taken - 1] == [] || !script[l.taken - 1].writes))
            && Asks(l.asked, Dialled(incoming, script, l.taken))
            && l.written == Answers(cap, incoming, script, l.taken)
  {
    if n > 0 {
      LooksUpExactly(cap, incoming, script, n - 1);
      var l := LookUp(cap, incoming, script, n - 1);
      if !l.over {
        LookOneAsks(cap, l, incoming[n - 1], script[n - 1], Dialled(incoming, script, n - 1));
        LookOneWrites(cap, l, incoming[n - 1], script[n - 1]);
      }
    }
  }

  /** The lookups end at read `k`, if not before: with an empty read, or an answer that came whole and cannot be
      written. */
  ghost predicate LookupsEndAt(incoming: seq<Bytes>, script: seq<Exchange>, k: nat)
    requires k < |incoming| <= |script|
  {
    incoming[k] == [] || (script[k].dials && !script[k].writes && Deframe(script[k].arrives).Some?)
  }

  /** They are over exactly if such a read has happened, and then it was the last. */
  lemma {:induction false} LookupsEndExactly(cap: nat, incoming: seq<Bytes>, script: seq<Exchange>, n: nat)
    requires Readable(incoming, script) && n <= |incoming|
    ensures var l := LookUp(cap, incoming, script, n);
            && (l.over <==> exists k :: 0 <= k < n && LookupsEndAt(incoming, script, k))
            && l.taken <= n && (l.over ==> l.taken > 0 && LookupsEndAt(incoming, script, l.taken - 1))
            && (!l.over ==> l.taken == n)
            && forall k :: 0 <= k < l.taken - 1 ==> !LookupsEndAt(incoming, script, k)
  {
    if n > 0 {
      LookupsEndExactly(cap, incoming, script, n - 1);
      var before := LookUp(cap, incoming, script, n - 1);
      if !before.over {
        var after := LookOne(cap, before, incoming[n - 1], script[n - 1]);
        assert after.taken == n && (after.over <==> LookupsEndAt(incoming, script, n - 1));
      }
    }
  }

  /** So no answer is larger than the cap. */
  lemma {:induction false} AnswersFit(cap: nat, incoming: seq<Bytes>, script: seq<Exchange>, k: nat)
    requires k <= |incoming| <= |script|
    ensures forall i :: 0 <= i < |Answers(cap, incoming, script, k)| ==> |Answers(cap, incoming, script, k)[i]| <= cap
  {
    if k > 0 {
      AnswersFit(cap, incoming, script, k - 1);
      var x := script[k - 1];
      if Deframe(x.arrives).Some? {
        ClipsExactly(Deframe(x.arrives).value, cap);
      }
    }
  }

  lemma {:induction false} LookUpStays(cap: nat, incoming: seq<Bytes>, script: seq<Exchange>, k: nat, n: nat)
    requires Readable(incoming, script) && k <= n <= |incoming| && LookUp(cap, incoming, script, k).over
    ensures LookUp(cap, incoming, script, n) == LookUp(cap, incoming, script, k)
  {
    if k < n {
      LookUpStays(cap, incoming, script, k, n - 1);
    }
  }

  // ----- the flow

  datatype Association = Made | Refused | TimedOut

  /** `noUdp` is shared by all flows; the rest is this one's: reads still to come, and what was sent to the relay,
      written to a resolver, and written back to the peer. */
  class Flow {
    var noUdp: set<string>
    var incoming: seq<Bytes>
    var sent: seq<Bytes>
    var asked: seq<Bytes>
    var written: seq<Bytes>

    constructor (noUdp: set<string>, incoming: seq<Bytes>)
      ensures this.noUdp == noUdp && this.incoming == incoming && sent == asked == written == []
    {
      this.noUdp, this.incoming, sent, asked, written := noUdp, incoming, [], [], [];
    }

    method Relay(dst: SockAddr, cap: nat, idle: nat, events: seq<Event>)
      modifies `incoming, `sent, `written
      ensures var s := Pump(dst, cap, idle, Pumped(old(incoming), old(sent), old(written), 0, false), events, |events|);
              incoming == s.incoming && sent == s.sent && written == s.delivered
    {
      ghost var start := Pumped(incoming, sent, written, 0, false);
      var header := UdpHeader(dst);
      var i, over := 0, false;
      ghost var done := 0;
      while i < |events| && !over
        modifies `incoming, `sent, `written
        invariant i <= |events|
        invariant Pump(dst, cap, idle, start, events, i) == Pumped(incoming, sent, written, done, over)
        decreases |events| - i
      {
        over := Handle(header, dst, cap, idle, events[i], done);
        done := if over then done else done + 1;
        i := i + 1;
      }
      if over { PumpStays(dst, cap, idle, start, events, i, |events|); }
    }

    method Handle(header: Bytes, dst: SockAddr, cap: nat, idle: nat, e: Event, ghost done: nat) returns (over: bool)
      requires forall body :: header + body == Datagram(0, 0, dst, body)
      modifies `incoming, `sent, `written
      ensures PumpOne(dst, cap, idle, Pumped(old(incoming), old(sent), old(written), done, false), e)
              == Pumped(incoming, sent, written, if over then done else done + 1, over)
    {
      if e.after > idle { return true; }
      over := true;
      match e.what {
        case PeerReady(sends) =>
          if incoming == [] { return; }
          var data := incoming[0];
          incoming := incoming[1..];
          if data == [] || !sends { return; }
          sent := sent + [header + data];
          over := false;
        case RelayReady(reply, writes) =>
          over := false;
          var body := UnwrapUdp(reply);
          if body.None? || |body.value| > cap { return; }
          if !writes { return true; }
          written := written + [body.value];
        case _ =>
      }
    }

    /** Hands the stream back when there is no association to use. */
    method UdpRelay(up: string, dst: SockAddr, mtu: U16, idle: nat, association: Association, events: seq<Event>)
      returns (back: bool)
      requires sent == written == []
      modifies `noUdp, `incoming, `sent, `written
      ensures back <==> up in old(noUdp) || !association.Made?
      ensures noUdp == old(noUdp) + if up !in old(noUdp) && association.Refused? then {up} else {}
      ensures back ==> incoming == old(incoming) && sent == written == []
      ensures !back ==>
                var s := Pump(dst, Cap(mtu), idle, Fresh(old(incoming)), events, |events|);
                incoming == s.incoming && sent == s.sent && written == s.delivered
    {
      if up in noUdp { return true; }
      match association {
        case Refused =>
          noUdp := noUdp + {up};
          back := true;
        case TimedOut =>
          back := true;
        case Made =>
          Relay(dst, Cap(mtu), idle, events);
          back := false;
      }
    }

    method DnsOverTcp(mtu: U16, script: seq<Exchange>)
      requires Readable(incoming, script) && asked == written == []
      modifies `incoming, `asked, `written
      ensures var l := LookUp(Cap(mtu), old(incoming), script, |old(incoming)|);
              l.taken <= |old(incoming)| && incoming == old(incoming)[l.taken..] && asked == l.asked && written == l.written
    {
      ghost var all := incoming;
      var cap, i, over := Cap(mtu), 0, false;
      while incoming != [] && !over
        modifies `incoming, `asked, `written
        invariant i <= |all| && incoming == all[i..]
        invariant LookUp(cap, all, script, i) == Looked(i, asked, written, over)
        decreases |incoming|
      {
        assert all[i..][0] == all[i] && all[i..][1..] == all[i + 1..];
        over := Look(cap, script[i], i);
        i := i + 1;
      }
      if over { LookUpStays(cap, all, script, i, |all|); }
    }

    method Look(cap: nat, x: Exchange, ghost n: nat) returns (over: bool)
      requires incoming != [] && |incoming[0]| <= QUERY_MAX
      modifies `incoming, `asked, `written
      ensures incoming == old(incoming)[1..]
      ensures LookOne(cap, Looked(n, old(asked), old(written), false), old(incoming[0]), x)
              == Looked(n + 1, asked, written, over)
    {
      var query := incoming[0];
      incoming := incoming[1..];
      if query == [] { return true; }
      over := false;
      if !x.dials { return; }
      asked := asked + [Frame(query)];
      var answer := Deframe(x.arrives);
      if answer.None? { return; }
      if !x.writes { return true; }
      written := written + [Clip(answer.value, cap)];
    }

    /** A forced resolver takes every lookup. Otherwise the flow is relayed, lookups for at most ten idle seconds, and
        a lookup the relay cannot take goes over TCP to where it was sent. */
    method HandleUdp(up: string, dst: SockAddr, dns: Option<SockAddr>, mtu: U16, idle: nat, association: Association,
                     events: seq<Event>, script: seq<Exchange>) returns (resolver: Option<SockAddr>)
      requires Readable(incoming, script) && sent == asked == written == []
      modifies this
      ensures var forced := dst.port == DNS_PORT && dns.Some?;
              var relayed := !forced && up !in old(noUdp) && association.Made?;
              && resolver == (if forced then dns else if dst.port == DNS_PORT && !relayed then Some(dst) else None)
              && noUdp == old(noUdp) + (if !forced && up !in old(noUdp) && association.Refused? then {up} else {})
              && (resolver.Some? ==>
                    var l := LookUp(Cap(mtu), old(incoming), script, |old(incoming)|);
                    && l.taken <= |old(incoming)| && incoming == old(incoming)[l.taken..]
                    && sent == [] && asked == l.asked && written == l.written)
              && (relayed ==>
                    var wait := if dst.port == DNS_PORT && idle > DNS_IDLE then DNS_IDLE else idle;
                    var s := Pump(dst, Cap(mtu), wait, Fresh(old(incoming)), events, |events|);
                    asked == [] && incoming == s.incoming && sent == s.sent && written == s.delivered)
              && (resolver.None? && !relayed ==> incoming == old(incoming) && sent == asked == written == [])
    {
      if dst.port == DNS_PORT && dns.Some? {
        DnsOverTcp(mtu, script);
        return dns;
      }
      var wait := if dst.port == DNS_PORT && idle > DNS_IDLE then DNS_IDLE else idle;
      var back := UdpRelay(up, dst, mtu, wait, association, events);
      resolver := None;
      if back && dst.port == DNS_PORT {
        DnsOverTcp(mtu, script);
        resolver := Some(dst);
      }
    }
  }

  lemma {:induction false} PumpStays(dst: SockAddr, cap: nat, idle: nat, s: Pumped, events: seq<Event>, k: nat, n: nat)
    requires k <= n <= |events| && Pump(dst, cap, idle, s, events, k).over
    ensures Pump(dst, cap, idle, s, events, n) == Pump(dst, cap, idle, s, events, k)
  {
    if k < n {
      PumpStays(dst, cap, idle, s, events, k, n - 1);
    }
  }
}
