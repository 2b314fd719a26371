/** The killswitch over IPv6: where IPv6 packets go once the planned routes are in, by the longest prefix and then the
    smaller metric. */
module SixBlock {
  import opened Basics
  import opened Prefixes
  import opened RouteTable
  import opened RoutePlan
  import opened TunnelTable

  predicate Holds(r: Route6, d: U128) {
    Contains(r.net, V6(d))
  }

  predicate Beats(a: Route6, b: Route6) {
    a.net.len > b.net.len || (a.net.len == b.net.len && a.metric < b.metric)
  }

  ghost predicate IsBest(routes: set<Route6>, r: Route6, d: U128) {
    r in routes && Holds(r, d) && forall q :: q in routes && Holds(q, d) ==> !Beats(q, r)
  }

  /** Some best row for the destination is not the adapter's. */
  ghost predicate Escapes(routes: set<Route6>, d: U128) {
    exists r :: IsBest(routes, r, d) && !r.ours
  }

  // ----- who escapes

  /** A row through the adapter of that length and metric does not beat `u`. */
  predicate Yields(len: nat, metric: nat, u: Route6) {
    len < u.net.len || (len == u.net.len && u.metric <= metric)
  }

  ghost predicate HalvesYield(t: Tunnel, u: Route6, d: U128) {
    forall k :: 0 <= k < 2 && HALVES[k] !in t.cfg.allowedIps && Contains(HALVES[k], V6(d)) ==> Yields(1, 2, u)
  }

  ghost predicate AllowedYield(t: Tunnel, u: Route6, d: U128) {
    forall n :: n in t.cfg.allowedIps && Contains(n, V6(d)) ==> Yields(n.len, t.sys.default6 + 1, u)
  }

  ghost predicate ServerYields(t: Tunnel, u: Route6, d: U128) {
    V6(d) in t.cfg.dns ==> Yields(128, t.sys.default6 + 1, u)
  }

  ghost predicate Unbeaten(t: Tunnel, u: Route6, d: U128) {
    forall q :: q in t.before.routes6 && Holds(q, d) ==> !Beats(q, u)
  }

  /** Before anything is run: an initial row elsewhere takes the destination past the two halves, the allowed prefixes
      and the name servers. */
  ghost predicate Slips(t: Tunnel, u: Route6, d: U128) {
    && u in t.before.routes6 && !u.ours && Holds(u, d) && Unbeaten(t, u, d)
    && HalvesYield(t, u, d) && AllowedYield(t, u, d) && ServerYields(t, u, d)
  }

  lemma SixPlanned(t: Tunnel, c: Cmd)
    requires c.Route6Add? && (FromAllowed(t.cfg, c, |t.cfg.allowedIps|) || FromHalves(t.cfg, c) || FromDns(t.cfg, c))
    ensures t.Bound6(c) in t.Planned6()
  {
    ThroughMembers(t.cfg, t.lan, c);
  }

  lemma AllowedPlanned(t: Tunnel, n: IpNet)
    requires n in t.cfg.allowedIps && n.addr.V6?
    ensures Route6(n, true, t.sys.default6 + 1) in t.Planned6()
  {
    var i :| 0 <= i < |t.cfg.allowedIps| && t.cfg.allowedIps[i] == n;
    var c := AddNet(n, t.cfg.address.addr);
    assert Parts(n)[0] == n;
    assert FromOne(t.cfg, c, i);
    SixPlanned(t, c);
  }

  lemma HalfPlanned(t: Tunnel, k: nat)
    requires k < 2 && HALVES[k] !in t.cfg.allowedIps
    ensures Route6(HALVES[k], true, 2) in t.Planned6()
  {
    SixPlanned(t, Route6Add(HALVES[k], true));
  }

  lemma ServerPlanned(t: Tunnel, d: U128)
    requires V6(d) in t.cfg.dns
    ensures Route6(Host(V6(d)), true, t.sys.default6 + 1) in t.Planned6()
  {
    var c := AddNet(Host(V6(d)), t.cfg.address.addr);
    assert FromDns(t.cfg, c);
    SixPlanned(t, c);
  }

  lemma AllowedYields(t: Tunnel, u: Route6, d: U128, c: Cmd)
    requires FromAllowed(t.cfg, c, |t.cfg.allowedIps|) && c.Route6Add? && Holds(t.Bound6(c), d) && AllowedYield(t, u, d)
    ensures !Beats(t.Bound6(c), u)
  {
    var i :| 0 <= i < |t.cfg.allowedIps| && FromOne(t.cfg, c, i);
    var part :| part in Parts(t.cfg.allowedIps[i]) && c == AddNet(part, t.cfg.address.addr);
    assert part == t.cfg.allowedIps[i];
  }

  lemma HostYields(t: Tunnel, u: Route6, d: U128, c: Cmd)
    requires FromDns(t.cfg, c) && c.Route6Add? && Holds(t.Bound6(c), d) && ServerYields(t, u, d)
    ensures !Beats(t.Bound6(c), u)
  {
    var s :| s in t.cfg.dns && c == AddNet(Host(s), t.cfg.address.addr);
    HostHoldsItself(s, V6(d));
  }

  /** A planned row for the destination comes from one of the clauses. */
  lemma PlannedYields(t: Tunnel, u: Route6, d: U128, q: Route6)
    requires Slips(t, u, d) && q in t.Planned6() && Holds(q, d)
    ensures !Beats(q, u)
  {
    var c :| c in t.Cmds() && c.Route6Add? && q == t.Bound6(c);
    ThroughMembers(t.cfg, t.lan, c);
    if FromAllowed(t.cfg, c, |t.cfg.allowedIps|) {
      AllowedYields(t, u, d, c);
    } else if FromDns(t.cfg, c) {
      HostYields(t, u, d, c);
    }
  }

  lemma HostHoldsItself(a: Ip, ip: Ip)
    ensures Contains(Host(a), ip) <==> a == ip
  {
    assert HostBits(Host(a)) == 0 && Pow2(0) == 1;
  }

  lemma SlipsWhenBest(t: Tunnel, u: Route6, d: U128)
    requires IsBest(t.before.routes6 + t.Planned6(), u, d) && !u.ours
    ensures Slips(t, u, d)
  {
    forall k | 0 <= k < 2 && HALVES[k] !in t.cfg.allowedIps && Contains(HALVES[k], V6(d)) ensures Yields(1, 2, u) {
      HalfPlanned(t, k);
      assert !Beats(Route6(HALVES[k], true, 2), u);
    }
    forall n | n in t.cfg.allowedIps && Contains(n, V6(d)) ensures Yields(n.len, t.sys.default6 + 1, u) {
      AllowedPlanned(t, n);
      assert !Beats(Route6(n, true, t.sys.default6 + 1), u);
    }
    if V6(d) in t.cfg.dns {
      ServerPlanned(t, d);
      HostHoldsItself(V6(d), V6(d));
      assert !Beats(Route6(Host(V6(d)), true, t.sys.default6 + 1), u);
    }
  }

  /** Once a tunnel is up, an IPv6 destination escapes it exactly if, before anything was run, some initial row slipped
      past the configuration. */
  lemma SixEscapesExactly(t: Tunnel, d: U128)
    requires !t.After().failed
    ensures Escapes(t.After().machine.routes6, d) <==> exists u :: Slips(t, u, d)
  {
    var all := t.before.routes6 + t.Planned6();
    Table6After(t);
    if u :| IsBest(all, u, d) && !u.ours {
      SlipsWhenBest(t, u, d);
    }
    if u :| Slips(t, u, d) {
      forall q | q in all && Holds(q, d) ensures !Beats(q, u) {
        if q in t.Planned6() { PlannedYields(t, u, d, q); }
      }
      assert IsBest(all, u, d);
    }
  }

  // ----- what the halves do

  lemma {:induction false} TopBit(a: nat, k: nat)
    ensures a < Pow2(k) ==> Shr(a, k) == 0
    ensures Pow2(k) <= a < 2 * Pow2(k) ==> Shr(a, k) == 1
    decreases k
  {
    if k > 0 {
      TopBit(a / 2, k - 1);
    }
  }

  lemma InHalf(half: IpNet, d: U128)
    requires half.addr.V6? && half.len == 1
    requires d < 0x8000_0000_0000_0000_0000_0000_0000_0000 <==> half.addr.bits6 < 0x8000_0000_0000_0000_0000_0000_0000_0000
    ensures Contains(half, V6(d))
  {
    var k := HostBits(half);
    Width6();
    assert Pow2(k + 1) == 2 * Pow2(k);
    TopBit(d, k);
    TopBit(half.addr.bits6, k);
    BlockIffShr(d, half.addr.bits6, k);
  }

  /** A default row elsewhere never carries anything, and neither does a half, unless at a metric as good as 2 or with
      that half in the configuration. */
  lemma HalvesBeatDefaults(t: Tunnel, u: Route6, d: U128)
    requires Slips(t, u, d)
    ensures u.net.len >= 1
    ensures HALVES[0] !in t.cfg.allowedIps && HALVES[1] !in t.cfg.allowedIps ==> u.net.len > 1 || u.metric <= 2
  {
    var k := if d < 0x8000_0000_0000_0000_0000_0000_0000_0000 then 0 else 1;
    InHalf(HALVES[k], d);
    if HALVES[k] in t.cfg.allowedIps {
      assert Yields(HALVES[k].len, t.sys.default6 + 1, u);
    } else {
      assert Yields(1, 2, u);
    }
  }

  /** An on-link prefix is more specific: IPv6 to it stays outside the tunnel under the default full tunnel. */
  lemma LinkPrefixEscapes(t: Tunnel, u: Route6, d: U128)
    requires !t.After().failed && t.cfg.allowedIps == [Prefix(V4(0), 0)] && t.cfg.dns == []
    requires t.before.routes6 == {u} && !u.ours && u.net == Prefix(V6(d), 64)
    ensures Escapes(t.After().machine.routes6, d)
  {
    ContainsOwnAddress(u.net);
    assert Slips(t, u, d);
    SixEscapesExactly(t, d);
  }
}
