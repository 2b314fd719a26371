/** Admission of proxied flows: a global semaphore, one counter per peer, and guards that give both back when a
    task ends. One acceptor runs against any number of ending tasks; every atomic operation is its own step. */
module FlowCaps {

  /** Flows admitted at a time: of all peers together, and of one. */
  const MAX_FLOWS: nat := 4096
  const MAX_FLOWS_PER_PEER: nat := 512

  /** Where the acceptor stands with the flow in hand. `Over` and `Under` are the two outcomes of comparing the old
      counter; `Releasing` has given the counter back and still holds the permit. */
  datatype Acceptor = Idle | HasPermit(idx: nat) | Over(idx: nat) | Under(idx: nat) | Releasing(idx: nat)

  /** `live` are the guards of running tasks, `dropping` those between the two halves of their drop. */
  datatype State = State(permits: nat, counts: seq<int>, acceptor: Acceptor, live: multiset<nat>, dropping: multiset<nat>)

  datatype Step =
    | Acquire(idx: nat)
    | Refuse(idx: nat)
    | FetchAdd
    | Undo
    | Spawn
    | Ignore
    | Release
    | EndCount(idx: nat)
    | EndPermit(idx: nat)

  function Init(peers: nat): State {
    State(MAX_FLOWS, seq(peers, _ => 0), Idle, multiset{}, multiset{})
  }

  predicate Enabled(s: State, a: Step) {
    match a
    case Acquire(idx) => s.acceptor.Idle? && idx < |s.counts| && s.permits > 0
    case Refuse(idx) => s.acceptor.Idle? && idx < |s.counts| && s.permits == 0
    case FetchAdd => s.acceptor.HasPermit? && s.acceptor.idx < |s.counts|
    case Undo => s.acceptor.Over? && s.acceptor.idx < |s.counts|
    case Spawn => s.acceptor.Under?
    case Ignore => s.acceptor.Under? && s.acceptor.idx < |s.counts|
    case Release => s.acceptor.Releasing?
    case EndCount(idx) => idx in s.live && idx < |s.counts|
    case EndPermit(idx) => idx in s.dropping
  }

  function Add(counts: seq<int>, idx: nat, d: int): seq<int>
    requires idx < |counts|
  {
    counts[idx := counts[idx] + d]
  }

  function Next(s: State, a: Step): State
    requires Enabled(s, a)
  {
    match a
    case Acquire(idx) => s.(permits := s.permits - 1, acceptor := HasPermit(idx))
    case Refuse(_) => s
    case FetchAdd =>
      var idx := s.acceptor.idx;
      s.(counts := Add(s.counts, idx, 1),
         acceptor := if s.counts[idx] >= MAX_FLOWS_PER_PEER then Over(idx) else Under(idx))
    case Undo => s.(counts := Add(s.counts, s.acceptor.idx, -1), acceptor := Releasing(s.acceptor.idx))
    case Spawn => s.(live := s.live + multiset{s.acceptor.idx}, acceptor := Idle)
    case Ignore => s.(counts := Add(s.counts, s.acceptor.idx, -1), acceptor := Releasing(s.acceptor.idx))
    case Release => s.(permits := s.permits + 1, acceptor := Idle)
    case EndCount(idx) =>
      s.(counts := Add(s.counts, idx, -1), live := s.live - multiset{idx}, dropping := s.dropping + multiset{idx})
    case EndPermit(idx) => s.(permits := s.permits + 1, dropping := s.dropping - multiset{idx})
  }

  ghost predicate Reaches(s: State, steps: seq<Step>, t: State)
    decreases |steps|
  {
    if steps == [] then s == t
    else Enabled(s, steps[0]) && Reaches(Next(s, steps[0]), steps[1..], t)
  }

  // ----- the shared objects

  /** What the tasks share: the semaphore's free permits and the atomic counters. */
  class Flows {
    var permits: nat
    const counts: array<int>
    ghost var acceptor: Acceptor
    ghost var live: multiset<nat>
    ghost var dropping: multiset<nat>

    ghost function Abs(): State
      reads this, counts
    {
      State(permits, counts[..], acceptor, live, dropping)
    }

    constructor (peers: nat)
      ensures Abs() == Init(peers) && fresh(counts)
    {
      permits := MAX_FLOWS;
      counts := new int[peers](_ => 0);
      acceptor, live, dropping := Idle, multiset{}, multiset{};
      new;
      assert counts[..] == seq(peers, _ => 0);
    }

    method TryAcquire(idx: nat) returns (ok: bool)
      requires acceptor.Idle? && idx < counts.Length
      modifies this
      ensures ok <==> old(permits) > 0
      ensures Abs() == Next(old(Abs()), if ok then Acquire(idx) else Refuse(idx))
    {
      ok := permits > 0;
      if ok { permits, acceptor := permits - 1, HasPermit(idx); }
    }

    method Charge(idx: nat) returns (capped: bool)
      requires acceptor == HasPermit(idx) && idx < counts.Length
      modifies this, counts
      ensures Abs() == Next(old(Abs()), FetchAdd) && (capped <==> acceptor.Over?)
    {
      capped := counts[idx] >= MAX_FLOWS_PER_PEER;
      counts[idx] := counts[idx] + 1;
      acceptor := if capped then Over(idx) else Under(idx);
      assert counts[..] == Add(old(counts[..]), idx, 1);
    }

    /** First half of giving a slot back without a task: over the cap, or a flow of no known kind. */
    method Discharge(idx: nat)
      requires (acceptor == Over(idx) || acceptor == Under(idx)) && idx < counts.Length
      modifies this, counts
      ensures Abs() == Next(old(Abs()), if old(acceptor).Over? then Undo else Ignore)
    {
      counts[idx] := counts[idx] - 1;
      acceptor := Releasing(idx);
      assert counts[..] == Add(old(counts[..]), idx, -1);
    }

    method ReleasePermit()
      requires acceptor.Releasing?
      modifies this
      ensures Abs() == Next(old(Abs()), Release)
    {
      permits, acceptor := permits + 1, Idle;
    }

    method SpawnTask(idx: nat)
      requires acceptor == Under(idx)
      modifies this
      ensures Abs() == Next(old(Abs()), Spawn)
    {
      live, acceptor := live + multiset{idx}, Idle;
    }

    /** `FlowGuard::drop`: the counter first, the permit with the fields. */
    method DropCount(idx: nat)
      requires idx in live && idx < counts.Length
      modifies this, counts
      ensures Abs() == Next(old(Abs()), EndCount(idx))
    {
      counts[idx] := counts[idx] - 1;
      live, dropping := live - multiset{idx}, dropping + multiset{idx};
      assert counts[..] == Add(old(counts[..]), idx, -1);
    }

    method DropPermit(idx: nat)
      requires idx in dropping
      modifies this
      ensures Abs() == Next(old(Abs()), EndPermit(idx))
    {
      permits, dropping := permits + 1, dropping - multiset{idx};
    }

    /** The acceptor's body for one flow of peer `idx`, when nothing interleaves: a flow is admitted exactly when a
        permit is free and the peer is under its cap, and a flow not admitted leaves no trace. */
    method Accept(idx: nat, proxied: bool) returns (admitted: bool)
      requires Inv(Abs()) && acceptor.Idle? && idx < counts.Length
      modifies this, counts
      ensures admitted <==> old(permits) > 0 && old(live)[idx] < MAX_FLOWS_PER_PEER && proxied
      ensures !admitted ==> Abs() == old(Abs())
      ensures admitted ==> live == old(live) + multiset{idx} && acceptor.Idle?
    {
      ghost var s := Abs();
      var ok := TryAcquire(idx);
      if !ok { return false; }
      var capped := Charge(idx);
      ChargeDecides(s, idx);
      if capped || !proxied {
        Discharge(idx);
        ReleasePermit();
        return false;
      }
      SpawnTask(idx);
      return true;
    }
  }

  /** With the acceptor idle, charging a peer finds it over the cap exactly at 512 live flows; and giving back what was
      taken restores the state. */
  lemma ChargeDecides(s: State, idx: nat)
    requires Inv(s) && s.acceptor.Idle? && idx < |s.counts| && s.permits > 0
    ensures var t := Next(Next(s, Acquire(idx)), FetchAdd);
            && (t.acceptor == if s.live[idx] >= MAX_FLOWS_PER_PEER then Over(idx) else Under(idx))
            && t.live == s.live
            && Next(Next(t, if t.acceptor.Over? then Undo else Ignore), Release) == s
  {
    var t := Next(Next(s, Acquire(idx)), FetchAdd);
    assert s.counts[idx] == s.live[idx] + Charged(s.acceptor, idx);
    assert Add(t.counts, idx, -1) == s.counts;
  }

  // ----- every reachable state

  /** Whether the acceptor is counted for peer `i`. */
  function Charged(a: Acceptor, i: nat): nat {
    if (a.Over? || a.Under?) && a.idx == i then 1 else 0
  }

  /** Permits that are out: one per guard, and the acceptor's. */
  function Held(s: State): nat {
    |s.live| + |s.dropping| + if s.acceptor.Idle? then 0 else 1
  }

  /** Every permit is free or out. */
  predicate Conserved(s: State) {
    s.permits + Held(s) == MAX_FLOWS
  }

  /** Every counter counts the peer's live guards, and the acceptor while it is charged. */
  ghost predicate Counted(s: State) {
    && (forall i :: 0 <= i < |s.counts| ==> s.counts[i] == s.live[i] + Charged(s.acceptor, i))
    && (forall i :: i in s.live ==> i < |s.counts|)
    && (!s.acceptor.Idle? ==> s.acceptor.idx < |s.counts|)
  }

  ghost predicate Capped(s: State) {
    && (forall i :: 0 <= i < |s.counts| ==> s.live[i] <= MAX_FLOWS_PER_PEER)
    && (s.acceptor.Under? ==> s.live[s.acceptor.idx] < MAX_FLOWS_PER_PEER)
  }

  ghost predicate Inv(s: State) {
    Conserved(s) && Counted(s) && Capped(s)
  }

  /** The steps of the acceptor that leave the counters alone. */
  lemma PermitStepKeeps(s: State, a: Step)
    requires Inv(s) && Enabled(s, a) && (a.Acquire? || a.Refuse? || a.Release?)
    ensures Inv(Next(s, a)) && Next(s, a).counts == s.counts
  {
  }

  lemma FetchAddKeeps(s: State)
    requires Inv(s) && Enabled(s, FetchAdd)
    ensures Inv(Next(s, FetchAdd)) && |Next(s, FetchAdd).counts| == |s.counts|
  {
    var idx := s.acceptor.idx;
    assert Charged(s.acceptor, idx) == 0;
  }

  lemma GiveBackKeeps(s: State, a: Step)
    requires Inv(s) && Enabled(s, a) && (a.Undo? || a.Ignore?)
    ensures Inv(Next(s, a)) && |Next(s, a).counts| == |s.counts|
  {
    assert Charged(s.acceptor, s.acceptor.idx) == 1;
  }

  lemma SpawnKeeps(s: State)
    requires Inv(s) && Enabled(s, Spawn)
    ensures Inv(Next(s, Spawn)) && Next(s, Spawn).counts == s.counts
  {
    assert Charged(s.acceptor, s.acceptor.idx) == 1;
  }

  lemma EndCountKeeps(s: State, idx: nat)
    requires Inv(s) && Enabled(s, EndCount(idx))
    ensures Inv(Next(s, EndCount(idx))) && |Next(s, EndCount(idx)).counts| == |s.counts|
  {
    assert |s.live - multiset{idx}| == |s.live| - 1;
  }

  lemma EndPermitKeeps(s: State, idx: nat)
    requires Inv(s) && Enabled(s, EndPermit(idx))
    ensures Inv(Next(s, EndPermit(idx))) && Next(s, EndPermit(idx)).counts == s.counts
  {
    assert |s.dropping - multiset{idx}| == |s.dropping| - 1;
  }

  lemma NextKeeps(s: State, a: Step)
    requires Inv(s) && Enabled(s, a)
    ensures Inv(Next(s, a)) && |Next(s, a).counts| == |s.counts|
  {
    match a
    case FetchAdd => FetchAddKeeps(s);
    case Undo => GiveBackKeeps(s, a);
    case Ignore => GiveBackKeeps(s, a);
    case Spawn => SpawnKeeps(s);
    case EndCount(idx) => EndCountKeeps(s, idx);
    case EndPermit(idx) => EndPermitKeeps(s, idx);
    case _ => PermitStepKeeps(s, a);
  }

  lemma {:induction false} ReachableInv(s: State, steps: seq<Step>, t: State)
    requires Inv(s) && Reaches(s, steps, t)
    ensures Inv(t) && |t.counts| == |s.counts|
    decreases |steps|
  {
    if steps != [] {
      NextKeeps(s, steps[0]);
      ReachableInv(Next(s, steps[0]), steps[1..], t);
    }
  }

  function Sum(counts: seq<int>): int {
    if counts == [] then 0 else Sum(counts[..|counts| - 1]) + counts[|counts| - 1]
  }

  /** Counters that count a multiset of peers, plus the acceptor, add up to its size. */
  lemma {:induction false} SumCounts(counts: seq<int>, m: multiset<nat>, a: Acceptor)
    requires forall i :: 0 <= i < |counts| ==> counts[i] == m[i] + Charged(a, i)
    requires forall i :: i in m ==> i < |counts|
    ensures Sum(counts) == |m| + if (a.Over? || a.Under?) && a.idx < |counts| then 1 else 0
  {
    if counts == [] {
      assert m == multiset{};
    } else {
      var last := |counts| - 1;
      SumCounts(counts[..last], m[last := 0], a);
    }
  }

  /** Under every interleaving: permits are conserved, the counters never claim more than the permits that are out,
      no peer ever has more than 512 flows, a counter passes 512 only while the acceptor is about to undo it and
      never passes 513, and no counter goes below zero. */
  lemma CapsHold(peers: nat, steps: seq<Step>, s: State)
    requires Reaches(Init(peers), steps, s)
    ensures s.permits + Held(s) == 4096
    ensures Sum(s.counts) <= Held(s)
    ensures forall i :: 0 <= i < peers ==> s.live[i] <= 512
    ensures |s.counts| == peers
    ensures forall i :: 0 <= i < peers ==> 0 <= s.counts[i] <= 513
    ensures forall i :: 0 <= i < peers && s.counts[i] > 512 ==> s.acceptor == Over(i)
  {
    ReachableInv(Init(peers), steps, s);
    SumCounts(s.counts, s.live, s.acceptor);
  }

  /** When every task has ended, everything has been given back. */
  lemma AllGivenBack(peers: nat, steps: seq<Step>, s: State)
    requires Reaches(Init(peers), steps, s)
    requires s.acceptor.Idle? && s.live == multiset{} && s.dropping == multiset{}
    ensures s == Init(peers)
  {
    ReachableInv(Init(peers), steps, s);
  }

  /** The caps turn away no flow they need not: the comparison fails exactly when the peer has 512 live flows at
      that very moment, and the semaphore is empty exactly when 4096 permits are out. */
  lemma CapsAreExact(peers: nat, steps: seq<Step>, s: State)
    requires Reaches(Init(peers), steps, s)
    ensures s.acceptor.HasPermit? ==>
              && Enabled(s, FetchAdd)
              && (Next(s, FetchAdd).acceptor.Over? <==> s.live[s.acceptor.idx] == 512)
    ensures s.permits == 0 <==> Held(s) == 4096
    ensures s.acceptor.Idle? && peers > 0 ==> (Enabled(s, Acquire(0)) <==> Held(s) < 4096)
  {
    ReachableInv(Init(peers), steps, s);
  }
}
