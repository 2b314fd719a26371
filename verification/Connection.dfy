/** What comes of an open connection, from the events on it: how and when it is left, and when something last moved. */
module Connection {
  const IDLE: nat := 300_000

  /** Something happening on an open connection, `after` milliseconds from the last thing that did. The timer
      fires no earlier than the deadline. */
  datatype Event =
    | Dequeued(after: nat, written: bool)
    | ChannelEnd(after: nat)
    | Frame(after: nat)
    | Control(after: nat)
    | Closed(after: nat)
    | Timer(after: nat)

  datatype Ending = IdleExit | ChannelEnded | StillRunning

  // ----- what an open connection comes to

  predicate Moves(e: Event) {
    e.Dequeued? || e.Frame?
  }

  predicate Stops(e: Event) {
    e.ChannelEnd? || e.Closed? || e.Timer? || (e.Dequeued? && !e.written)
  }

  /** Number of events before the first that ends the connection. */
  function Undisturbed(events: seq<Event>): (k: nat)
    ensures k <= |events| && (k < |events| ==> Stops(events[k])) && forall j :: 0 <= j < k ==> !Stops(events[j])
  {
    if events == [] || Stops(events[0]) then 0 else 1 + Undisturbed(events[1..])
  }

  /** Number of events that happen at all: the one that ends the connection is the last. */
  function Reach(events: seq<Event>): (n: nat)
    ensures n <= |events|
  {
    var k := Undisturbed(events);
    if k < |events| then k + 1 else k
  }

  function Elapsed(events: seq<Event>, k: nat): nat
    requires k <= |events|
  {
    if k == 0 then 0 else Elapsed(events, k - 1) + events[k - 1].after
  }

  /** How the connection ends the task, if it does. */
  function EndOf(events: seq<Event>): Ending {
    var k := Undisturbed(events);
    if k < |events| && events[k].ChannelEnd? then ChannelEnded
    else if k < |events| && events[k].Timer? then IdleExit
    else StillRunning
  }

  /** When a connection that opened at `now` is left: with its last event, or with the deadline if its timer fires. */
  function LeftAt(now: nat, events: seq<Event>, last: nat): nat {
    var t, idle := now + Elapsed(events, Reach(events)), LastMove(now, events, last) + IDLE;
    if EndOf(events).IdleExit? && t < idle then idle else t
  }

  /** What comes of a connection whose event `i` is the first that ends it. */
  lemma StopsAt(events: seq<Event>, i: nat, now: nat, last: nat)
    requires i < |events| && Stops(events[i]) && forall j :: 0 <= j < i ==> !Stops(events[j])
    ensures var e, t, idle := events[i], now + Elapsed(events, i) + events[i].after, LastMove(now, events, last) + IDLE;
            && EndOf(events) == (if e.ChannelEnd? then ChannelEnded else if e.Timer? then IdleExit else StillRunning)
            && LeftAt(now, events, last) == (if e.Timer? && t < idle then idle else t)
  {
    assert Undisturbed(events) == i;
  }

  lemma {:induction false} ElapsedTail(events: seq<Event>, k: nat)
    requires 0 < k <= |events|
    ensures Elapsed(events, k) == events[0].after + Elapsed(events[1..], k - 1)
  {
    if k > 1 {
      ElapsedTail(events, k - 1);
    }
  }

  /** The last datagram dequeued or frame received while the connection lasts sets the time of the last move. */
  lemma {:induction false} LastMoveAt(now: nat, events: seq<Event>, last: nat, j: nat)
    requires j < Reach(events) && Moves(events[j]) && forall i :: j < i < Reach(events) ==> !Moves(events[i])
    ensures AnyMove(events) && LastMove(now, events, last) == now + Elapsed(events, j + 1)
    decreases j
  {
    ElapsedTail(events, j + 1);
    var rest, first := events[1..], now + events[0].after;
    if j == 0 {
      if !Stops(events[0]) {
        assert forall i :: 0 <= i < Reach(rest) ==> rest[i] == events[i + 1];
        NoMove(first, rest, first);
      }
    } else {
      assert Undisturbed(events) == 1 + Undisturbed(rest);
      assert forall i :: 0 <= i < Reach(rest) ==> rest[i] == events[i + 1];
      LastMoveAt(first, rest, if Moves(events[0]) then first else last, j - 1);
    }
  }

  lemma {:induction false} NoMove(now: nat, events: seq<Event>, last: nat)
    requires forall i :: 0 <= i < Reach(events) ==> !Moves(events[i])
    ensures !AnyMove(events) && LastMove(now, events, last) == last
    decreases |events|
  {
    if events != [] {
      assert !Moves(events[0]);
      if events[0].Control? {
        assert Undisturbed(events) == 1 + Undisturbed(events[1..]);
        assert forall i :: 0 <= i < Reach(events[1..]) ==> events[1..][i] == events[i + 1];
        NoMove(now + events[0].after, events[1..], last);
      }
    }
  }

  // ----- what counts as activity

  /** Whether a datagram is dequeued or a frame arrives before the connection is over. */
  predicate AnyMove(events: seq<Event>) {
    events != [] &&
    match events[0]
    case Dequeued(_, _) => true
    case Frame(_) => true
    case Control(_) => AnyMove(events[1..])
    case _ => false
  }

  /** When that last happens on a connection that opened at `now`; `last` if it never does. */
  function LastMove(now: nat, events: seq<Event>, last: nat): nat
    decreases |events|
  {
    if events == [] then last
    else
      match events[0]
      case Dequeued(after, written) => if written then LastMove(now + after, events[1..], now + after) else now + after
      case Frame(after) => LastMove(now + after, events[1..], now + after)
      case Control(after) => LastMove(now + after, events[1..], last)
      case _ => last
  }

  // ----- one event after the other

  /** Event `i` of a connection that opened at `start` comes next at `now`; something last moved at `last`, in this
      connection if `active`. */
  ghost predicate Midway(start: nat, events: seq<Event>, first: nat, i: nat, now: nat, last: nat, active: bool) {
    && i <= |events| && now == start + Elapsed(events, i) && (forall j :: 0 <= j < i ==> !Stops(events[j]))
    && LastMove(now, events[i..], last) == LastMove(start, events, first)
    && (active || AnyMove(events[i..]) <==> AnyMove(events))
  }

  lemma EventPasses(start: nat, events: seq<Event>, first: nat, i: nat, was: nat, lastWas: nat, activeWas: bool,
      now: nat, last: nat, active: bool)
    requires Midway(start, events, first, i, was, lastWas, activeWas) && i < |events| && !Stops(events[i])
    requires now == was + events[i].after && last == (if Moves(events[i]) then now else lastWas)
    requires active <==> activeWas || Moves(events[i])
    ensures Midway(start, events, first, i + 1, now, last, active)
  {
    assert events[i..][1..] == events[i + 1..];
  }

  /** What comes of the connection if event `i` ends it. */
  lemma EventStops(start: nat, events: seq<Event>, first: nat, i: nat, was: nat, lastWas: nat, activeWas: bool,
      end: Ending, now: nat, last: nat, active: bool)
    requires Midway(start, events, first, i, was, lastWas, activeWas) && i < |events| && Stops(events[i])
    requires last == (if Moves(events[i]) then was + events[i].after else lastWas)
    requires now == (if events[i].Timer? && was + events[i].after < last + IDLE then last + IDLE else was + events[i].after)
    requires end == (if events[i].ChannelEnd? then ChannelEnded else if events[i].Timer? then IdleExit else StillRunning)
    requires active <==> activeWas || Moves(events[i])
    ensures events[i] in events && EndOf(events) == end && LeftAt(start, events, first) == now
    ensures LastMove(start, events, first) == last && (AnyMove(events) <==> active)
  {
    StopsAt(events, i, start, first);
  }

  lemma ConnectionOpens(start: nat, events: seq<Event>, first: nat)
    ensures Midway(start, events, first, 0, start, first, false)
  {
    assert events[0..] == events;
  }

  /** And if none does. */
  lemma NothingStops(start: nat, events: seq<Event>, first: nat, now: nat, last: nat, active: bool)
    requires Midway(start, events, first, |events|, now, last, active)
    ensures (forall e :: e in events ==> !Stops(e)) && EndOf(events) == StillRunning
    ensures LastMove(start, events, first) == last && (AnyMove(events) <==> active) && LeftAt(start, events, first) == now
  {
  }
}
