/** The bridge's loop and its tasks together: how the task of a source ends, and when the loop forgets the source. */
module Mappings {
  import opened Basics
  import opened Prefixes
  import opened Bridge
  import opened Connection
  import Task = ClientPeer

  /** The script of the task at channel `c` fits the run: its channel ends only where its receiver sees the end. */
  ghost predicate Fits(steps: seq<Step>, c: nat, script: seq<Task.Attempt>) {
    (exists i :: 0 <= i < |script| && Task.EndsChannel(script[i])) ==>
      exists k, t :: 0 <= k <= |steps| && Reaches(START, steps[..k], t) && c < |t.chans| && SeesEnd(t, c)
  }

  /** In the bridge a task never ends with its channel. */
  lemma OnlyIdleEnds(steps: seq<Step>, c: nat, start: nat, script: seq<Task.Attempt>, end: Ending,
                     rounds: seq<Task.Round>, now: nat)
    requires Fits(steps, c, script) && Task.Lived(start, script, end, rounds, now)
    ensures !end.ChannelEnded?
  {
    if end.ChannelEnded? {
      var k, t :| 0 <= k <= |steps| && Reaches(START, steps[..k], t) && c < |t.chans| && SeesEnd(t, c);
      OneTaskPerSource(steps[..k], t);
      assert false;
    }
  }

  /** From attempt `k` on none connects: within 43 more the task is gone, unless it is still in a connection it had
      before, which nothing has ended. */
  lemma FailuresEnd(steps: seq<Step>, c: nat, start: nat, script: seq<Task.Attempt>, end: Ending,
                    rounds: seq<Task.Round>, now: nat, k: nat)
    requires Fits(steps, c, script) && Task.Lived(start, script, end, rounds, now)
    requires k + 44 <= |script| && forall j :: k <= j < |script| ==> script[j].Fails?
    ensures |rounds| <= k + 43
    ensures end.IdleExit? || (end.StillRunning? && 0 < |rounds| <= k && Task.StaysOpen(script[|rounds| - 1]))
    ensures k == 0 ==> end.IdleExit?
  {
    OnlyIdleEnds(steps, c, start, script, end, rounds, now);
    if |rounds| >= k {
      forall j | k <= j < |rounds| ensures !rounds[j].connected {
        assert Task.RoundAt(start, script, rounds, j);
      }
      assert Task.Throughout(rounds, Task.UNCONNECTED, k, |rounds|);
    }
  }

  // ----- forgetting

  function Closed(s: State): set<SockAddr> {
    set src | src in s.peers && !IsOpen(s, src)
  }

  lemma {:induction false} StaysClosed(s: State, steps: seq<Step>, t: State, c: nat)
    requires Reaches(s, steps, t) && c < |s.chans| && !s.chans[c].open
    ensures c < |t.chans| && !t.chans[c].open && t.chans[c].src == s.chans[c].src
    decreases |steps|
  {
    if steps != [] {
      StaysClosed(Next(s, steps[0]), steps[1..], t, c);
    }
  }

  /** With nothing more from a source it gets no new channel. */
  lemma {:induction false} NoneReplaces(s: State, steps: seq<Step>, t: State, c: nat)
    requires Reaches(s, steps, t) && c < |s.chans|
    requires s.chans[c].src in s.peers ==> s.peers[s.chans[c].src] == c
    requires forall a :: a in steps ==> !(a.Datagram? && a.src == s.chans[c].src)
    ensures s.chans[c].src in t.peers ==> t.peers[s.chans[c].src] == c
    decreases |steps|
  {
    if steps != [] {
      var n := Next(s, steps[0]);
      assert n.chans[c].src == s.chans[c].src;
      forall a | a in steps[1..] ensures !(a.Datagram? && a.src == n.chans[c].src) {
        assert a in steps;
      }
      NoneReplaces(n, steps[1..], t, c);
    }
  }

  /** Once the task of a source has ended, whatever else happens meanwhile, the next sweep leaves exactly the sources
      with a live task, and the ended one's channel to none. The source is forgotten unless it sent something since. */
  lemma SweptAfterEnd(steps: seq<Step>, s: State, c: nat, later: seq<Step>, t: State)
    requires Reaches(START, steps, s) && Enabled(s, TaskEnds(c))
    requires Reaches(Next(s, TaskEnds(c)), later, t) && t.hand.None?
    ensures Enabled(t, Sweep(Closed(t)))
    ensures var swept, src := Next(t, Sweep(Closed(t))), s.chans[c].src;
            && (forall a :: a in swept.peers <==> IsOpen(t, a))
            && (forall a :: a in swept.peers ==> swept.peers[a] != c)
            && ((forall e :: e in later ==> !(e.Datagram? && e.src == src)) ==> src !in swept.peers)
  {
    var n := Next(s, TaskEnds(c));
    OneTaskPerSource(steps, s);
    StaysClosed(n, later, t, c);
    if forall e :: e in later ==> !(e.Datagram? && e.src == s.chans[c].src) {
      NoneReplaces(n, later, t, c);
    }
  }
}
