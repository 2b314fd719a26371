/** One source's connection task: reconnecting with a doubling pause until nothing has moved for five minutes. Time
    is a natural number of milliseconds; what the network does is a script the task runs against. */
module ClientPeer {
  import opened Prefixes
  import opened Connection

  const BACKOFF_MIN: nat := 250
  const BACKOFF_MAX: nat := 8_000

  /** A connection attempt takes `time`; a pause may last `over` longer than asked. */
  datatype Attempt = Fails(time: nat, over: nat) | Connects(time: nat, events: seq<Event>, over: nat)

  /** One turn of the outer loop: whether it connected, whether a datagram or frame moved in it, when the attempt
      was over, when its connection was left, when something last moved as of then, and the pause asked for after it. */
  datatype Round = Round(connected: bool, active: bool, attempted: nat, left: nat, moved: nat, pause: nat)

  // ----- what a round comes to

  function MovedBefore(start: nat, rounds: seq<Round>, k: nat): nat
    requires k <= |rounds|
  {
    if k == 0 then start else rounds[k - 1].moved
  }

  /** When the round after the first `k` begins. */
  function WokeAt(start: nat, script: seq<Attempt>, rounds: seq<Round>, k: nat): nat
    requires k <= |rounds| <= |script|
  {
    if k == 0 then start else rounds[k - 1].left + rounds[k - 1].pause + script[k - 1].over
  }

  /** What the round that begins at `woke` with attempt `a` comes to; something last moved at `last`. */
  predicate RoundOf(a: Attempt, woke: nat, last: nat, r: Round) {
    && (r.connected <==> a.Connects?) && (r.active <==> a.Connects? && AnyMove(a.events))
    && r.attempted == woke + a.time
    && r.moved == (if a.Connects? then LastMove(r.attempted, a.events, last) else last)
    && r.left == (if a.Connects? then LeftAt(r.attempted, a.events, last) else r.attempted)
  }

  /** The trace says what the script made happen, and when. */
  ghost predicate Traces(start: nat, script: seq<Attempt>, rounds: seq<Round>) {
    |rounds| <= |script| && forall k :: 0 <= k < |rounds| ==> RoundAt(start, script, rounds, k)
  }

  predicate RoundAt(start: nat, script: seq<Attempt>, rounds: seq<Round>, k: nat)
    requires k < |rounds| <= |script|
  {
    RoundOf(script[k], WokeAt(start, script, rounds, k), MovedBefore(start, rounds, k), rounds[k])
  }

  /** The attempt opens a connection that lasts until the channel ends. */
  predicate EndsChannel(a: Attempt) {
    a.Connects? && EndOf(a.events).ChannelEnded?
  }

  /** The attempt opens a connection that nothing ends. */
  predicate StaysOpen(a: Attempt) {
    a.Connects? && forall e :: e in a.events ==> !Stops(e)
  }

  // ----- the pauses

  function Backoff(retry: nat): nat {
    var b := BACKOFF_MIN * Pow2(retry);
    if b < BACKOFF_MAX then b else BACKOFF_MAX
  }

  lemma BackoffDoubles(retry: nat)
    ensures Backoff(retry + 1) == if 2 * Backoff(retry) < BACKOFF_MAX then 2 * Backoff(retry) else BACKOFF_MAX
    ensures BACKOFF_MIN <= Backoff(retry) <= Backoff(retry + 1)
  {
  }

  /** Total of the first `n` pauses. */
  function Slept(n: nat): nat {
    if n == 0 then 0 else Slept(n - 1) + Backoff(n - 1)
  }

  lemma FirstPauses()
    ensures Backoff(0) == 250 && Backoff(1) == 500 && Backoff(2) == 1000 && Backoff(3) == 2000 && Backoff(4) == 4000
    ensures Slept(5) == 7750
  {
    assert Pow2(1) == 2 && Pow2(2) == 4 && Pow2(3) == 8 && Pow2(4) == 16;
    assert Slept(3) == 1750;
  }

  lemma {:induction false} SleptExactly(n: nat)
    requires n >= 5
    ensures Slept(n) == 7750 + 8000 * (n - 5)
    ensures Backoff(n) == 8000
  {
    if n == 5 {
      FirstPauses();
      assert Pow2(5) == 32;
    } else {
      SleptExactly(n - 1);
      BackoffDoubles(n - 1);
    }
  }

  /** Fewer than five minutes of pauses means at most 41 of them, and 41 do fit. */
  lemma PausesFit(n: nat)
    ensures Slept(n) < IDLE <==> n <= 41
  {
    if n >= 5 {
      SleptExactly(n);
    } else {
      SleptMonotone(n, 5);
      SleptExactly(5);
    }
  }

  lemma {:induction false} SleptMonotone(m: nat, n: nat)
    requires m <= n
    ensures Slept(m) <= Slept(n)
    decreases n
  {
    if m < n {
      SleptMonotone(m, n - 1);
    }
  }

  /** Number of pauses since the task started or last connected, for the pause after the last round. */
  function Retry(rounds: seq<Round>): nat
    requires rounds != []
  {
    var last := |rounds| - 1;
    if rounds[last].connected || last == 0 then 0 else 1 + Retry(rounds[..last])
  }

  // ----- stretches of rounds

  /** Length of the longest stretch at the end in which `p` holds. */
  function Trailing(rounds: seq<Round>, p: Round -> bool): nat {
    if rounds == [] || !p(rounds[|rounds| - 1]) then 0 else 1 + Trailing(rounds[..|rounds| - 1], p)
  }

  predicate Throughout(rounds: seq<Round>, p: Round -> bool, a: int, b: int)
    requires 0 <= a <= b <= |rounds|
  {
    forall k :: a <= k < b ==> p(rounds[k])
  }

  ghost predicate StretchesWithin(rounds: seq<Round>, p: Round -> bool, n: nat) {
    forall a, b :: 0 <= a <= b <= |rounds| && Throughout(rounds, p, a, b) ==> b - a <= n
  }

  lemma {:induction false} TrailingIsLongest(rounds: seq<Round>, p: Round -> bool, a: nat)
    requires a <= |rounds| && Throughout(rounds, p, a, |rounds|)
    ensures |rounds| - a <= Trailing(rounds, p)
    decreases |rounds|
  {
    if a < |rounds| {
      var init := rounds[..|rounds| - 1];
      assert Throughout(init, p, a, |init|);
      TrailingIsLongest(init, p, a);
    }
  }

  lemma StretchesExtend(rounds: seq<Round>, r: Round, p: Round -> bool, n: nat)
    requires StretchesWithin(rounds, p, n) && Trailing(rounds + [r], p) <= n
    ensures StretchesWithin(rounds + [r], p, n)
  {
    var more := rounds + [r];
    forall a, b | 0 <= a <= b <= |more| && Throughout(more, p, a, b) ensures b - a <= n {
      if b == |more| {
        TrailingIsLongest(more, p, a);
      } else {
        forall k | a <= k < b ensures p(rounds[k]) {
          assert rounds[k] == more[k];
        }
        assert Throughout(rounds, p, a, b);
      }
    }
  }

  const UNCONNECTED: Round -> bool := (r: Round) => !r.connected
  const QUIET: Round -> bool := (r: Round) => !r.active

  // ----- the task

  /** One event of an open connection: whether it ends it, and how. */
  method OneEvent(e: Event, was: nat, deadlineWas: nat)
    returns (stops: bool, end: Ending, now: nat, deadline: nat, moved: bool)
    ensures (stops <==> Stops(e)) && (moved <==> Moves(e))
    ensures deadline == if moved then was + e.after + IDLE else deadlineWas
    ensures now == if e.Timer? && was + e.after < deadlineWas then deadlineWas else was + e.after
    ensures end == if e.ChannelEnd? then ChannelEnded else if e.Timer? then IdleExit else StillRunning
  {
    now, deadline, moved, stops, end := was + e.after, deadlineWas, false, false, StillRunning;
    match e {
      case Dequeued(after, written) =>
        deadline, moved := now + IDLE, true;
        stops := !written;
      case ChannelEnd(after) =>
        stops, end := true, ChannelEnded;
      case Frame(after) =>
        deadline, moved := now + IDLE, true;
      case Control(after) =>
      case Closed(after) =>
        stops := true;
      case Timer(after) =>
        if now < deadline { now := deadline; }
        stops, end := true, IdleExit;
    }
  }

  /** The inner loop of an open connection. `open` says that the script ran out first, so that nothing ended it. */
  method Converse(start: nat, events: seq<Event>, before: nat)
    returns (end: Ending, open: bool, now: nat, deadline: nat, active: bool)
    requires before >= IDLE && before - IDLE <= start
    ensures start <= now && deadline >= IDLE && deadline - IDLE <= now
    ensures deadline - IDLE == LastMove(start, events, before - IDLE)
    ensures active <==> AnyMove(events)
    ensures if active then start <= deadline - IDLE else deadline == before
    ensures end == EndOf(events) && now == LeftAt(start, events, before - IDLE)
    ensures end.IdleExit? ==> now >= deadline
    ensures open <==> forall e :: e in events ==> !Stops(e)
  {
    now, deadline, active, open := start, before, false, false;
    end := StillRunning;
    var i := 0;
    ghost var last: nat := before - IDLE;
    ConnectionOpens(start, events, last);
    while i < |events|
      invariant 0 <= i <= |events|
      invariant start <= now && deadline == last + IDLE && last <= now
      invariant if active then start <= last else deadline == before
      invariant Midway(start, events, before - IDLE, i, now, last, active) && end.StillRunning?
    {
      ghost var was, lastWas, activeWas := now, last, active;
      var stops, moved;
      stops, end, now, deadline, moved := OneEvent(events[i], now, deadline);
      active, last := active || moved, deadline - IDLE;
      if stops {
        EventStops(start, events, before - IDLE, i, was, lastWas, activeWas, end, now, last, active);
        return;
      }
      EventPasses(start, events, before - IDLE, i, was, lastWas, activeWas, now, last, active);
      i := i + 1;
    }
    NothingStops(start, events, before - IDLE, now, last, active);
    open := true;
  }

  /** How far the clock is past the last activity at the top of a round, and how the pauses stand. */
  ghost predicate OnSchedule(rounds: seq<Round>, now: nat, deadline: nat, backoff: nat) {
    && deadline >= IDLE && now >= deadline - IDLE + Slept(Trailing(rounds, UNCONNECTED))
    && now >= deadline - IDLE + BACKOFF_MIN * Trailing(rounds, QUIET)
    && backoff == Backoff(if rounds == [] then 0 else 1 + Retry(rounds))
    && Trailing(rounds, UNCONNECTED) <= 42 && Trailing(rounds, QUIET) <= 1200
  }

  /** After every round the task paused as its count of retries says. */
  ghost predicate PausesDouble(rounds: seq<Round>) {
    rounds != [] ==>
      PausesDouble(rounds[..|rounds| - 1]) && rounds[|rounds| - 1].pause == Backoff(Retry(rounds))
  }

  lemma {:induction false} RetryCoversTrailing(rounds: seq<Round>)
    requires rounds != []
    ensures Trailing(rounds, UNCONNECTED) <= 1 + Retry(rounds)
  {
    var last := |rounds| - 1;
    if !rounds[last].connected && last > 0 {
      RetryCoversTrailing(rounds[..last]);
    }
  }

  lemma {:induction false} BackoffMonotone(m: nat, n: nat)
    requires m <= n
    ensures Backoff(m) <= Backoff(n)
    decreases n
  {
    if m < n {
      BackoffMonotone(m, n - 1);
      BackoffDoubles(n - 1);
    }
  }

  /** A round that ends before the deadline and then pauses puts the task back on schedule. */
  lemma RoundKeepsSchedule(rounds: seq<Round>, r: Round, was: nat, before: nat, backoff: nat,
      now: nat, deadline: nat, pause: nat, wake: nat)
    requires OnSchedule(rounds, was, before, backoff)
    requires was <= now && deadline >= IDLE && now < deadline && deadline - IDLE <= now
    requires if r.active then r.connected && was <= deadline - IDLE else deadline == before
    requires pause == r.pause == (if r.connected then BACKOFF_MIN else backoff) && wake >= now + pause
    ensures OnSchedule(rounds + [r], wake, deadline, if 2 * pause < BACKOFF_MAX then 2 * pause else BACKOFF_MAX)
    ensures r.pause == Backoff(Retry(rounds + [r]))
  {
    var more := rounds + [r];
    assert more[..|rounds|] == rounds;
    var f, q := Trailing(rounds, UNCONNECTED), Trailing(rounds, QUIET);
    assert Pow2(0) == 1;
    assert pause == Backoff(Retry(more));
    BackoffDoubles(Retry(more));
    if !r.connected {
      if rounds != [] {
        RetryCoversTrailing(rounds);
      }
      BackoffMonotone(f, Retry(more));
      assert Slept(f + 1) == Slept(f) + Backoff(f);
      PausesFit(f);
    }
  }

  /** Everything the trace promises, except for the pause after its last round. */
  ghost predicate Good(start: nat, script: seq<Attempt>, rounds: seq<Round>) {
    && StretchesWithin(rounds, UNCONNECTED, 43) && StretchesWithin(rounds, QUIET, 1201)
    && (rounds != [] ==> PausesDouble(rounds[..|rounds| - 1]))
    && Traces(start, script, rounds)
  }

  ghost predicate TracesRound(start: nat, script: seq<Attempt>, rounds: seq<Round>, r: Round) {
    && |rounds| < |script|
    && RoundOf(script[|rounds|], WokeAt(start, script, rounds, |rounds|), MovedBefore(start, rounds, |rounds|), r)
  }

  lemma TracesExtend(start: nat, script: seq<Attempt>, rounds: seq<Round>, r: Round)
    requires Traces(start, script, rounds) && TracesRound(start, script, rounds, r)
    ensures Traces(start, script, rounds + [r])
  {
    var more := rounds + [r];
    forall k | 0 <= k < |more| ensures RoundAt(start, script, more, k) {
      if k < |rounds| {
        assert RoundAt(start, script, rounds, k);
      }
    }
  }

  lemma Extend(start: nat, script: seq<Attempt>, rounds: seq<Round>, r: Round)
    requires Good(start, script, rounds) && PausesDouble(rounds) && TracesRound(start, script, rounds, r)
    requires Trailing(rounds, UNCONNECTED) <= 42 && Trailing(rounds, QUIET) <= 1200
    ensures Good(start, script, rounds + [r])
  {
    assert (rounds + [r])[..|rounds|] == rounds;
    StretchesExtend(rounds, r, UNCONNECTED, 43);
    StretchesExtend(rounds, r, QUIET, 1201);
    TracesExtend(start, script, rounds, r);
  }

  /** The loop invariant of the task. */
  ghost predicate Steady(start: nat, script: seq<Attempt>, rounds: seq<Round>, now: nat, deadline: nat, backoff: nat) {
    && OnSchedule(rounds, now, deadline, backoff)
    && Good(start, script, rounds) && PausesDouble(rounds)
    && deadline == MovedBefore(start, rounds, |rounds|) + IDLE
    && now == WokeAt(start, script, rounds, |rounds|)
  }

  lemma RoundEnds(start: nat, script: seq<Attempt>, rounds: seq<Round>, r: Round,
      was: nat, before: nat, backoff: nat, now: nat, deadline: nat, pause: nat, wake: nat)
    requires Steady(start, script, rounds, was, before, backoff) && TracesRound(start, script, rounds, r)
    requires was <= now && deadline >= IDLE && deadline - IDLE <= now && r.moved == deadline - IDLE
    requires if r.active then was <= deadline - IDLE else deadline == before
    requires pause == (if r.connected then BACKOFF_MIN else backoff) && wake == now + pause + script[|rounds|].over
    requires r.left == now
    ensures Good(start, script, rounds + [r])
    ensures now < deadline && r.pause == pause ==>
              Steady(start, script, rounds + [r], wake, deadline, if 2 * pause < BACKOFF_MAX then 2 * pause else BACKOFF_MAX)
  {
    Extend(start, script, rounds, r);
    assert (rounds + [r])[..|rounds|] == rounds;
    if now < deadline && r.pause == pause {
      RoundKeepsSchedule(rounds, r, was, before, backoff, now, deadline, pause, wake);
    }
  }

  /** One attempt and, if it connects, its conversation. */
  method Attend(start: nat, a: Attempt, before: nat)
    returns (end: Ending, over: bool, attempted: nat, now: nat, deadline: nat, active: bool)
    requires before >= IDLE && before - IDLE <= start
    ensures start <= attempted <= now && IDLE <= deadline <= now + IDLE
    ensures deadline - IDLE == if a.Connects? then LastMove(attempted, a.events, before - IDLE) else before - IDLE
    ensures active <==> a.Connects? && AnyMove(a.events)
    ensures if active then start <= deadline - IDLE else deadline == before
    ensures end.IdleExit? ==> now >= deadline
    ensures attempted == start + a.time
    ensures now == if a.Connects? then LeftAt(attempted, a.events, before - IDLE) else attempted
    ensures end == if a.Connects? then EndOf(a.events) else StillRunning
    ensures over <==> !end.StillRunning? || StaysOpen(a)
  {
    attempted := start + a.time;
    end, over, now, deadline, active := StillRunning, false, attempted, before, false;
    if a.Connects? {
      end, over, now, deadline, active := Converse(attempted, a.events, before);
      over := over || !end.StillRunning?;
    }
  }

  /** How a task ends with its last round, or the script does: idle only five minutes after something last moved, with
      its channel only while connected, and otherwise in a connection that nothing ended. */
  ghost predicate EndsWell(script: seq<Attempt>, rounds: seq<Round>, end: Ending, now: nat) {
    && 0 < |rounds| <= |script| && now == rounds[|rounds| - 1].left
    && (end.IdleExit? ==> now >= rounds[|rounds| - 1].moved + IDLE)
    && (end.ChannelEnded? ==> EndsChannel(script[|rounds| - 1]))
    && (end.StillRunning? ==> StaysOpen(script[|rounds| - 1]))
  }

  /** A whole life of the task, until it ends or the script does. */
  ghost predicate Lived(start: nat, script: seq<Attempt>, end: Ending, rounds: seq<Round>, now: nat) {
    Good(start, script, rounds) && (EndsWell(script, rounds, end, now) || (end.StillRunning? && |rounds| == |script|))
  }

  /** An attempt that fails, and a connection that is closed or cannot be written to, is followed by the next attempt,
      unless five minutes have passed since something last moved. */
  lemma Reconnects(start: nat, script: seq<Attempt>, end: Ending, rounds: seq<Round>, now: nat, k: nat)
    requires Lived(start, script, end, rounds, now) && k < |rounds| && k + 1 < |script|
    requires rounds[k].left < rounds[k].moved + IDLE
    requires script[k].Connects? ==> !EndsChannel(script[k]) && exists e :: e in script[k].events && Stops(e)
    ensures k + 1 < |rounds|
  {
  }

  lemma LastRoundEnds(script: seq<Attempt>, before: seq<Round>, r: Round, end: Ending, now: nat)
    requires |before| < |script| && now == r.left && (end.IdleExit? ==> now >= r.moved + IDLE)
    requires end.ChannelEnded? ==> EndsChannel(script[|before|])
    requires end.StillRunning? ==> StaysOpen(script[|before|])
    ensures EndsWell(script, before + [r], end, now)
  {
    assert (before + [r])[|before|] == r;
  }

  /** One turn of the outer loop. */
  method Turn(start: nat, script: seq<Attempt>, ghost before: seq<Round>, a: Attempt, was: nat, deadlineWas: nat, backoffWas: nat)
    returns (end: Ending, over: bool, r: Round, now: nat, deadline: nat, backoff: nat)
    requires |before| < |script| && a == script[|before|]
    requires Steady(start, script, before, was, deadlineWas, backoffWas)
    ensures Good(start, script, before + [r])
    ensures over ==> EndsWell(script, before + [r], end, now)
    ensures !over ==> end.StillRunning? && Steady(start, script, before + [r], now, deadline, backoff)
  {
    var attempted, active;
    end, over, attempted, now, deadline, active := Attend(was, a, deadlineWas);
    backoff := if a.Connects? then BACKOFF_MIN else backoffWas;
    var idle := now >= deadline;
    r := Round(a.Connects?, active, attempted, now, deadline - IDLE, if over || idle then 0 else backoff);
    RoundEnds(start, script, before, r, was, deadlineWas, backoffWas, now, deadline, backoff, now + backoff + a.over);
    if idle && !over { end, over := IdleExit, true; }
    if over {
      LastRoundEnds(script, before, r, end, now);
      return;
    }
    now := now + backoff + a.over;
    backoff := if 2 * backoff < BACKOFF_MAX then 2 * backoff else BACKOFF_MAX;
  }

  lemma StartsSteady(start: nat, script: seq<Attempt>)
    ensures Steady(start, script, [], start, start + IDLE, BACKOFF_MIN)
  {
    assert Pow2(0) == 1;
  }

  /** The task, from its first attempt until it ends or the script does. It gives up as idle only five minutes
      after something last moved, never makes more than 43 attempts in a row that fail, never goes through more
      than 1201 rounds in which nothing moves, and doubles its pauses from 250 ms to at most 8 s. */
  method Run(start: nat, script: seq<Attempt>) returns (end: Ending, rounds: seq<Round>, now: nat)
    ensures Lived(start, script, end, rounds, now)
  {
    var backoff: nat, deadline: nat := BACKOFF_MIN, start + IDLE;
    now, rounds := start, [];
    StartsSteady(start, script);
    while |rounds| < |script|
      invariant Steady(start, script, rounds, now, deadline, backoff)
      decreases |script| - |rounds|
    {
      var over, r;
      end, over, r, now, deadline, backoff := Turn(start, script, rounds, script[|rounds|], now, deadline, backoff);
      rounds := rounds + [r];
      if over { return; }
    }
    end := StillRunning;
  }
}
