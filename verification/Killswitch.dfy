/** "Routing is the killswitch": where packets go once the planned routes are in. A row with the longer mask wins,
    and among equal masks the smaller metric. Masks are contiguous and destinations aligned, as `route` insists, so
    a row covers the block of addresses from its destination on. */
module Killswitch {
  import opened Basics
  import opened Prefixes
  import opened RouteTable
  import opened RoutePlan
  import opened RouteUndo
  import opened TunnelTable

  // ----- looking up

  predicate Covers(r: Route, d: U32) {
    r.dest <= d <= r.dest + (ALL_ONES - r.mask)
  }

  predicate Beats(a: Route, b: Route) {
    a.mask > b.mask || (a.mask == b.mask && a.metric < b.metric)
  }

  ghost predicate IsBest(routes: set<Route>, r: Route, d: U32) {
    r in routes && Covers(r, d) && forall q :: q in routes && Covers(q, d) ==> !Beats(q, r)
  }

  /** Some best row for the destination is not the adapter's. */
  ghost predicate Escapes(routes: set<Route>, d: U32, adapter: U32) {
    exists r :: IsBest(routes, r, d) && r.iface != adapter
  }

  ghost predicate Captured(routes: set<Route>, d: U32, adapter: U32) {
    (exists r :: IsBest(routes, r, d)) && !Escapes(routes, d, adapter)
  }

  lemma {:induction false} BestExists(routes: set<Route>, d: U32)
    requires exists r :: r in routes && Covers(r, d)
    ensures exists r :: IsBest(routes, r, d)
    decreases |routes|
  {
    var r :| r in routes && Covers(r, d);
    var rest := routes - {r};
    if q :| q in rest && Covers(q, d) {
      BestExists(rest, d);
      var b :| IsBest(rest, b, d);
      if Beats(b, r) {
        assert IsBest(routes, b, d);
      } else {
        assert IsBest(routes, r, d);
      }
    } else {
      assert IsBest(routes, r, d);
    }
  }

  // ----- who escapes

  lemma {:induction false} Pow2Injective(j: nat, k: nat)
    ensures Pow2(j) == Pow2(k) ==> j == k
    decreases j
  {
    if j > 0 && k > 0 {
      Pow2Injective(j - 1, k - 1);
    }
  }

  /** A mask says its length. */
  lemma MaskInjective(a: nat, b: nat)
    requires a <= 32 && b <= 32
    ensures Mask4(a) == Mask4(b) ==> a == b
  {
    Pow2Injective(32 - a, 32 - b);
  }

  /** A planned row for a prefix without host bits covers exactly the prefix. */
  lemma PrefixCovers(n: IpNet, r: Route, d: U32)
    requires n.addr.V4? && r.dest == n.addr.bits4 && r.mask == Mask4(n.len) && NoHostBits(r.dest, r.mask)
    ensures Covers(r, d) <==> Contains(n, V4(d))
  {
    var len :| 0 <= len <= 32 && r.mask == Mask4(len) && Floor(r.dest, 32 - len) == r.dest;
    MaskInjective(len, n.len);
    assert Network(n) == r.dest;
    assert Broadcast(n) == r.dest + (ALL_ONES - r.mask);
  }

  /** On-link on that interface, and neither a host, loopback, multicast nor broadcast route. */
  predicate IsLink(u: Route, iface: U32) {
    u.via == u.iface == iface && u.mask != ALL_ONES && OrdinaryDest(u.dest)
  }

  /** The listing names the on-link subnets of the default interface. */
  ghost predicate Lists(t: Tunnel) {
    && (forall u :: u in t.before.routes && IsLink(u, t.iface) ==> (u.dest, u.mask) in t.lan)
    && (forall k :: 0 <= k < |t.lan| ==> ShownLink(t, t.lan[k].0, t.lan[k].1))
  }

  ghost predicate ShownLink(t: Tunnel, dest: U32, mask: U32) {
    exists l :: l in t.before.routes && IsLink(l, t.iface) && l.dest == dest && l.mask == mask
  }

  /** A row through the adapter with that mask, at metric 2, does not beat `u`. */
  predicate Yields(mask: U32, u: Route) {
    mask < u.mask || (mask == u.mask && u.metric <= 2)
  }

  /** No initial row beats `u` for the destination. */
  ghost predicate Unbeaten(t: Tunnel, u: Route, d: U32) {
    forall q :: q in t.before.routes && Covers(q, d) ==> !Beats(q, u)
  }

  /** The halves of a full tunnel yield. */
  ghost predicate HalvesYield(t: Tunnel, u: Route) {
    FullTunnel(t.cfg) ==> Yields(0x8000_0000, u)
  }

  /** So does every allowed prefix holding the destination. */
  ghost predicate AllowedYield(t: Tunnel, u: Route, d: U32) {
    forall n :: n in t.cfg.allowedIps && n.addr.V4? && n.len > 0 && Contains(n, V4(d)) ==> Yields(Mask4(n.len), u)
  }

  /** In a full tunnel, so does every on-link subnet of the default interface there, but for the adapter's own. */
  ghost predicate LinksYield(t: Tunnel, u: Route, d: U32) {
    FullTunnel(t.cfg) ==>
      forall l :: l in t.before.routes && IsLink(l, t.iface) && !IsOwn(t.cfg, l.dest, l.mask) && Covers(l, d) ==>
                    Yields(l.mask, u)
  }

  /** So does its host route, if the destination is a name server. */
  ghost predicate ServerYields(t: Tunnel, u: Route, d: U32) {
    V4(d) in t.cfg.dns ==> Yields(ALL_ONES, u)
  }

  /** Before anything is run: an initial row elsewhere takes the destination past everything the configuration will
      route into the tunnel. */
  ghost predicate Slips(t: Tunnel, u: Route, d: U32) {
    && u in t.before.routes && u.iface != t.Adapter() && Covers(u, d) && Unbeaten(t, u, d)
    && HalvesYield(t, u) && AllowedYield(t, u, d) && LinksYield(t, u, d) && ServerYields(t, u, d)
  }

  lemma IsPlanned(t: Tunnel, c: Cmd)
    requires t.OnV4() && c in t.Cmds() && c.RouteAdd? && c.dest.V4?
    ensures IsBound(c) && Bound(c) == Route(c.dest.bits4, c.mask, t.Adapter(), t.Adapter(), 2) && Bound(c) in t.Planned()
  {
    ThroughBound(t.cfg, t.lan, c);
  }

  /** A prefix the configuration allows is planned, in halves if it is a default. */
  lemma AllowedPlanned(t: Tunnel, n: IpNet, part: IpNet) returns (r: Route)
    requires t.OnV4() && n in t.cfg.allowedIps && part in Parts(n) && part.addr.V4?
    ensures r in t.Planned() && r == Route(part.addr.bits4, Mask4(part.len), t.Adapter(), t.Adapter(), 2)
    ensures t.Aligned() ==> NoHostBits(r.dest, r.mask)
  {
    var i :| 0 <= i < |t.cfg.allowedIps| && t.cfg.allowedIps[i] == n;
    var c := AddNet(part, t.cfg.address.addr);
    assert FromOne(t.cfg, c, i);
    ThroughMembers(t.cfg, t.lan, c);
    IsPlanned(t, c);
    r := Bound(c);
  }

  lemma HalfMask()
    ensures Mask4(1) == 0x8000_0000 && Mask4(0) == 0
  {
  }

  /** A full tunnel has a planned row of mask 128.0.0.0 for every destination. */
  lemma HalfCovers(t: Tunnel, d: U32) returns (r: Route)
    requires t.OnV4() && FullTunnel(t.cfg)
    ensures r in t.Planned() && Covers(r, d) && r.mask == 0x8000_0000
  {
    var i :| 0 <= i < |t.cfg.allowedIps| && IsDefault4(t.cfg.allowedIps[i]);
    var half: IpNet := if d < 0x8000_0000 then Prefix(V4(0), 1) else Prefix(V4(0x8000_0000), 1);
    assert half in Parts(t.cfg.allowedIps[i]);
    HalfMask();
    r := AllowedPlanned(t, t.cfg.allowedIps[i], half);
  }

  /** No planned row beats `u` for the destination. */
  ghost predicate PlanYields(t: Tunnel, u: Route, d: U32) {
    forall q :: q in t.Planned() && Covers(q, d) ==> !Beats(q, u)
  }

  lemma AllowedYieldsWhenUnbeaten(t: Tunnel, u: Route, d: U32)
    requires t.OnV4() && t.Aligned() && PlanYields(t, u, d)
    ensures AllowedYield(t, u, d)
  {
    forall n | n in t.cfg.allowedIps && n.addr.V4? && n.len > 0 && Contains(n, V4(d)) ensures Yields(Mask4(n.len), u) {
      assert Parts(n)[0] == n;
      var r := AllowedPlanned(t, n, n);
      PrefixCovers(n, r, d);
    }
  }

  lemma LinksYieldWhenUnbeaten(t: Tunnel, u: Route, d: U32)
    requires t.OnV4() && Lists(t) && PlanYields(t, u, d)
    ensures LinksYield(t, u, d)
  {
    if FullTunnel(t.cfg) {
      forall l | l in t.before.routes && IsLink(l, t.iface) && !IsOwn(t.cfg, l.dest, l.mask) && Covers(l, d)
        ensures Yields(l.mask, u)
      {
        var k :| 0 <= k < |t.lan| && t.lan[k] == (l.dest, l.mask);
        var c := RouteAdd(V4(l.dest), l.mask, t.cfg.address.addr, true);
        ThroughMembers(t.cfg, t.lan, c);
        IsPlanned(t, c);
        assert Covers(Bound(c), d);
      }
    }
  }

  lemma Mask32(len: nat)
    requires len <= 32
    ensures Mask4(len) == ALL_ONES <==> len == 32
  {
    assert Pow2(0) == 1;
    if len < 32 {
      assert Pow2(32 - len) == 2 * Pow2(31 - len);
    }
  }

  lemma ServerPlanned(t: Tunnel, a: U32) returns (r: Route)
    requires t.OnV4() && V4(a) in t.cfg.dns
    ensures r in t.Planned() && r == Route(a, ALL_ONES, t.Adapter(), t.Adapter(), 2)
  {
    var c := AddNet(Host(V4(a)), t.cfg.address.addr);
    HostMask(V4(a));
    assert FromDns(t.cfg, c);
    ThroughMembers(t.cfg, t.lan, c);
    IsPlanned(t, c);
    r := Bound(c);
  }

  lemma LanYields(t: Tunnel, u: Route, d: U32, c: Cmd, q: Route)
    requires Lists(t) && FromLan(t.cfg, t.lan, c) && IsBound(c) && q == Bound(c) && Covers(q, d) && LinksYield(t, u, d)
    ensures !Beats(q, u)
  {
    var k :| 0 <= k < |t.lan| && !IsOwn(t.cfg, t.lan[k].0, t.lan[k].1)
             && c == RouteAdd(V4(t.lan[k].0), t.lan[k].1, t.cfg.address.addr, true);
    assert ShownLink(t, t.lan[k].0, t.lan[k].1);
    var l :| l in t.before.routes && IsLink(l, t.iface) && l.dest == t.lan[k].0 && l.mask == t.lan[k].1;
    assert Covers(l, d);
  }

  lemma HostMask(a: Ip)
    requires a.V4?
    ensures Mask4(Host(a).len) == ALL_ONES
  {
    Mask32(Host(a).len);
  }

  lemma DnsYields(t: Tunnel, u: Route, d: U32, c: Cmd, q: Route)
    requires FromDns(t.cfg, c) && IsBound(c) && q == Bound(c) && Covers(q, d) && ServerYields(t, u, d)
    ensures !Beats(q, u)
  {
    var s :| s in t.cfg.dns && c == AddNet(Host(s), t.cfg.address.addr);
    HostMask(s);
    assert q.dest == d;
  }

  lemma AllowedYields(t: Tunnel, u: Route, d: U32, c: Cmd, q: Route)
    requires t.OnV4() && FromAllowed(t.cfg, c, |t.cfg.allowedIps|) && IsBound(c) && q == Bound(c) && Covers(q, d)
    requires NoHostBits(q.dest, q.mask) && HalvesYield(t, u) && AllowedYield(t, u, d)
    ensures !Beats(q, u)
  {
    var i :| 0 <= i < |t.cfg.allowedIps| && FromOne(t.cfg, c, i);
    var part :| part in Parts(t.cfg.allowedIps[i]) && c == AddNet(part, t.cfg.address.addr);
    PartYields(t, u, d, t.cfg.allowedIps[i], part, q);
  }

  /** A planned row for the destination comes from one of the clauses, so it does not beat a row they let pass. */
  lemma PlannedYields(t: Tunnel, u: Route, d: U32, q: Route)
    requires t.OnV4() && t.Aligned() && Lists(t) && Slips(t, u, d) && q in t.Planned() && Covers(q, d)
    ensures !Beats(q, u)
  {
    var c :| c in t.Cmds() && IsBound(c) && q == Bound(c);
    ThroughMembers(t.cfg, t.lan, c);
    if FromAllowed(t.cfg, c, |t.cfg.allowedIps|) {
      AllowedYields(t, u, d, c, q);
    } else if FromLan(t.cfg, t.lan, c) {
      LanYields(t, u, d, c, q);
    } else {
      DnsYields(t, u, d, c, q);
    }
  }

  lemma PartYields(t: Tunnel, u: Route, d: U32, n: IpNet, part: IpNet, q: Route)
    requires t.OnV4() && n in t.cfg.allowedIps && part in Parts(n) && part.addr.V4?
    requires q.dest == part.addr.bits4 && q.mask == Mask4(part.len) && q.metric == 2 && NoHostBits(q.dest, q.mask)
    requires HalvesYield(t, u) && AllowedYield(t, u, d) && Covers(q, d)
    ensures !Beats(q, u)
  {
    HalfMask();
    if IsDefault4(n) {
      assert FullTunnel(t.cfg);
    } else {
      PrefixCovers(n, q, d);
    }
  }

  /** Neither the gateway nor the server. */
  predicate Unpinned(t: Tunnel, d: U32) {
    d != t.gateway && V4(d) != t.server
  }

  lemma HalvesYieldWhenUnbeaten(t: Tunnel, u: Route, d: U32)
    requires t.OnV4() && PlanYields(t, u, d)
    ensures HalvesYield(t, u) && ServerYields(t, u, d)
  {
    if FullTunnel(t.cfg) {
      var half := HalfCovers(t, d);
      assert half.metric == 2 by { PlannedOnAdapter(t, half); }
    }
    if V4(d) in t.cfg.dns {
      var r := ServerPlanned(t, d);
      assert Covers(r, d);
    }
  }

  lemma PinsMiss(t: Tunnel, d: U32)
    requires t.OnV4() && Unpinned(t, d)
    ensures !Covers(t.GatewayPin(), d) && !Covers(t.ServerPin(), d)
  {
  }

  /** Best in the table is: unbeaten by the initial rows and by the planned ones. */
  lemma BestIff(t: Tunnel, d: U32, u: Route)
    requires t.OnV4() && Unpinned(t, d) && u.iface != t.Adapter()
    ensures IsBest(t.Table(), u, d) <==>
              u in t.before.routes && Covers(u, d) && Unbeaten(t, u, d) && PlanYields(t, u, d)
  {
    PinsMiss(t, d);
    if u in t.Planned() { PlannedOnAdapter(t, u); }
  }

  lemma SlipsWhenBest(t: Tunnel, d: U32, u: Route)
    requires t.OnV4() && t.Aligned() && Lists(t) && Unpinned(t, d)
    requires IsBest(t.Table(), u, d) && u.iface != t.Adapter()
    ensures Slips(t, u, d)
  {
    BestIff(t, d, u);
    AllowedYieldsWhenUnbeaten(t, u, d);
    LinksYieldWhenUnbeaten(t, u, d);
    HalvesYieldWhenUnbeaten(t, u, d);
  }

  lemma BestWhenSlips(t: Tunnel, d: U32, u: Route)
    requires t.OnV4() && t.Aligned() && Lists(t) && Unpinned(t, d) && Slips(t, u, d)
    ensures IsBest(t.Table(), u, d)
  {
    forall q | q in t.Planned() && Covers(q, d) ensures !Beats(q, u) {
      PlannedYields(t, u, d, q);
    }
    BestIff(t, d, u);
  }

  lemma TableEscapes(t: Tunnel, d: U32)
    requires t.OnV4() && t.Aligned() && Lists(t) && Unpinned(t, d)
    ensures Escapes(t.Table(), d, t.Adapter()) <==> exists u :: Slips(t, u, d)
  {
    if u :| IsBest(t.Table(), u, d) && u.iface != t.Adapter() {
      SlipsWhenBest(t, d, u);
    }
    if u :| Slips(t, u, d) {
      BestWhenSlips(t, d, u);
    }
  }

  /** Once a tunnel is up, full or not, a destination other than the two pinned hosts escapes it exactly if, before
      anything was run, some initial row slipped past the configuration. */
  lemma EscapesExactly(t: Tunnel, d: U32)
    requires !t.After().failed && RefusesHostBits(t.sys) && Lists(t) && Unpinned(t, d)
    ensures Escapes(t.After().machine.routes, d, t.Adapter()) <==> exists u :: Slips(t, u, d)
  {
    TableAfter(t);
    TableEscapes(t, d);
  }

  lemma TableCaptures(t: Tunnel, d: U32)
    requires t.OnV4() && t.Aligned() && FullTunnel(t.cfg) && Lists(t) && Unpinned(t, d)
    ensures Captured(t.Table(), d, t.Adapter()) <==> forall u :: !Slips(t, u, d)
  {
    TableEscapes(t, d);
    var half := HalfCovers(t, d);
    assert half in t.Table();
    BestExists(t.Table(), d);
  }

  /** A full tunnel captures every other destination. */
  lemma CapturedExactly(t: Tunnel, d: U32)
    requires !t.After().failed && RefusesHostBits(t.sys) && FullTunnel(t.cfg) && Lists(t) && Unpinned(t, d)
    ensures Captured(t.After().machine.routes, d, t.Adapter()) <==> forall u :: !Slips(t, u, d)
  {
    TableAfter(t);
    TableCaptures(t, d);
  }

  /** The adapter has the better metric for the subnet: with the planned row, or with the row of its own subnet,
      which is not planned again. */
  ghost predicate Outranked(t: Tunnel, u: Route) {
    if IsOwn(t.cfg, u.dest, u.mask) then
      exists c :: c in t.before.routes && c.iface == t.Adapter() && c.dest == u.dest && c.mask == u.mask && c.metric < u.metric
    else u.metric > 2
  }

  /** The row lies within loopback or multicast space. */
  predicate IsSpecial(u: Route) {
    var last := u.dest + (ALL_ONES - u.mask);
    (0x7f00_0000 <= u.dest && last <= 0x7fff_ffff) || (0xe000_0000 <= u.dest && last <= 0xefff_ffff)
  }

  /** An initial table of default rows, host rows, loopback and multicast rows and outranked on-link subnets of the
      default interface. */
  ghost predicate Ordinary(t: Tunnel) {
    forall u :: u in t.before.routes ==>
                  u.iface == t.Adapter() || u.mask == 0 || u.mask == ALL_ONES || IsSpecial(u)
                  || (IsLink(u, t.iface) && Outranked(t, u))
  }

  /** Over such a table everything but the gateway, the server, the hosts with rows, 127/8 and 224/4 is captured. */
  lemma RoutingIsTheKillswitch(t: Tunnel, d: U32)
    requires !t.After().failed && RefusesHostBits(t.sys) && FullTunnel(t.cfg) && Lists(t) && Unpinned(t, d)
    requires Ordinary(t)
    requires forall u :: u in t.before.routes && u.mask == ALL_ONES && u.iface != t.Adapter() ==> u.dest != d
    requires d / 0x100_0000 != 127 && d / 0x1000_0000 != 14
    ensures Captured(t.After().machine.routes, d, t.Adapter())
  {
    CapturedExactly(t, d);
    if u :| Slips(t, u, d) {
      OutrankedNeverSlips(t, u, d);
      assert false;
    }
  }

  lemma OutrankedNeverSlips(t: Tunnel, u: Route, d: U32)
    requires FullTunnel(t.cfg) && IsLink(u, t.iface) && Outranked(t, u)
    ensures !Slips(t, u, d)
  {
  }

  /** A subnet of a second interface is not in the plan. With the table of the repository's own test, a destination on
      it escapes the default full tunnel. */
  lemma OtherLinkEscapes(t: Tunnel)
    requires !t.After().failed && RefusesHostBits(t.sys) && V4(0x0a0a_0009) != t.server
    requires t.cfg.address == Prefix(V4(0x0a07_0002), 32) && t.cfg.dns == [] && t.cfg.allowedIps == [Prefix(V4(0), 0)]
    requires t.gateway == 0xc0a8_4601 && t.iface == 0xc0a8_4665
    requires t.lan == [(0xc0a8_4600, 0xffff_ff00), (0x0af4_0000, 0xffff_ff00)]
    requires t.before.routes == TestTable()
    ensures Escapes(t.After().machine.routes, 0x0a0a_0009, t.Adapter())
  {
    TestTableLists(t);
    OtherLinkSlips(t);
    EscapesExactly(t, 0x0a0a_0009);
  }

  lemma OtherLinkSlips(t: Tunnel)
    requires t.cfg.address == Prefix(V4(0x0a07_0002), 32) && t.cfg.dns == [] && t.cfg.allowedIps == [Prefix(V4(0), 0)]
    requires t.iface == 0xc0a8_4665 && t.before.routes == TestTable()
    ensures Slips(t, Route(0x0a0a_0000, 0xffff_ff00, 0x0a0a_0005, 0x0a0a_0005, 15), 0x0a0a_0009)
  {
  }

  const LOOPBACK: U32 := 0x7f00_0001
  const ETHERNET: U32 := 0xc0a8_4665
  const SECOND: U32 := 0x0a0a_0005

  /** The active rows of the test: a default route, loopback, the two on-link subnets of the default interface, one of
      a second interface, multicast and broadcast. */
  function TestTable(): set<Route> {
    {Route(0, 0, 0xc0a8_4601, ETHERNET, 50),
     Route(0x7f00_0000, 0xff00_0000, LOOPBACK, LOOPBACK, 331),
     Route(0x7f00_0001, ALL_ONES, LOOPBACK, LOOPBACK, 331),
     Route(0x7fff_ffff, ALL_ONES, LOOPBACK, LOOPBACK, 331),
     Route(0xc0a8_4600, 0xffff_ff00, ETHERNET, ETHERNET, 306),
     Route(0xc0a8_4665, ALL_ONES, ETHERNET, ETHERNET, 306),
     Route(0xc0a8_46ff, ALL_ONES, ETHERNET, ETHERNET, 306),
     Route(0x0af4_0000, 0xffff_ff00, ETHERNET, ETHERNET, 306),
     Route(0x0a0a_0000, 0xffff_ff00, SECOND, SECOND, 15),
     Route(0xe000_0000, 0xf000_0000, LOOPBACK, LOOPBACK, 331),
     Route(0xe000_0000, 0xf000_0000, ETHERNET, ETHERNET, 306),
     Route(ALL_ONES, ALL_ONES, LOOPBACK, LOOPBACK, 331),
     Route(ALL_ONES, ALL_ONES, ETHERNET, ETHERNET, 306)}
  }

  lemma TestTableLists(t: Tunnel)
    requires t.iface == 0xc0a8_4665 && t.before.routes == TestTable()
    requires t.lan == [(0xc0a8_4600, 0xffff_ff00), (0x0af4_0000, 0xffff_ff00)]
    ensures Lists(t)
  {
    assert t.lan[0] in t.lan && t.lan[1] in t.lan;
    var a := Route(0xc0a8_4600, 0xffff_ff00, t.iface, t.iface, 306);
    var b := Route(0x0af4_0000, 0xffff_ff00, t.iface, t.iface, 306);
    assert a in t.before.routes && b in t.before.routes;
  }

  // ----- the pinned hosts

  /** The configuration routes that very host into the tunnel. */
  ghost predicate NamesHost(cfg: ClientConfig, a: U32) {
    V4(a) in cfg.dns || Prefix(V4(a), 32) in cfg.allowedIps
  }

  lemma PartHost(n: IpNet, part: IpNet)
    requires part in Parts(n) && part.len == 32
    ensures part == n
  {
  }

  lemma HostNamed(cfg: ClientConfig, n: IpNet)
    requires n in cfg.allowedIps && n.addr.V4? && n.len == 32
    ensures NamesHost(cfg, n.addr.bits4)
  {
    assert n == Prefix(V4(n.addr.bits4), 32);
  }

  lemma AllowedHost(t: Tunnel, c: Cmd)
    requires FromAllowed(t.cfg, c, |t.cfg.allowedIps|) && IsBound(c) && c.mask == ALL_ONES
    ensures NamesHost(t.cfg, c.dest.bits4)
  {
    var i :| 0 <= i < |t.cfg.allowedIps| && FromOne(t.cfg, c, i);
    var n := t.cfg.allowedIps[i];
    var part :| part in Parts(n) && c == AddNet(part, t.cfg.address.addr);
    Mask32(part.len);
    PartHost(n, part);
    HostNamed(t.cfg, n);
  }

  /** A planned host route is one the configuration names. */
  lemma PlannedHost(t: Tunnel, r: Route)
    requires t.OnV4() && Lists(t) && r in t.Planned() && r.mask == ALL_ONES
    ensures NamesHost(t.cfg, r.dest)
  {
    var c :| c in t.Cmds() && IsBound(c) && r == Bound(c);
    ThroughMembers(t.cfg, t.lan, c);
    LanNeverHost(t, c);
    if FromAllowed(t.cfg, c, |t.cfg.allowedIps|) {
      AllowedHost(t, c);
    }
  }

  lemma LanNeverHost(t: Tunnel, c: Cmd)
    requires Lists(t)
    ensures FromLan(t.cfg, t.lan, c) ==> c.mask != ALL_ONES
  {
    if FromLan(t.cfg, t.lan, c) {
      var k :| 0 <= k < |t.lan| && c == RouteAdd(V4(t.lan[k].0), t.lan[k].1, t.cfg.address.addr, true);
      assert ShownLink(t, t.lan[k].0, t.lan[k].1);
    }
  }

  lemma NamedHost(t: Tunnel, a: U32) returns (r: Route)
    requires t.OnV4() && NamesHost(t.cfg, a)
    ensures r in t.Planned() && r.dest == a && r.mask == ALL_ONES
  {
    var n := Host(V4(a));
    if n in t.cfg.allowedIps {
      Mask32(n.len);
      assert Parts(n)[0] == n;
      r := AllowedPlanned(t, n, n);
    } else {
      r := ServerPlanned(t, a);
    }
  }

  ghost predicate Owned(routes: set<Route>, via: U32) {
    exists r :: r in routes && r.iface == via
  }

  /** The system sends a route that names no interface to the one owning its next hop, or else to that of a best row
      for it. */
  ghost predicate PicksSoundly(sys: System) {
    forall routes: set<Route>, via: U32 ::
      var chosen := sys.pick(routes, via);
      if Owned(routes, via) then chosen == via
      else (exists r :: IsBest(routes, r, via)) ==> exists r :: IsBest(routes, r, via) && r.iface == chosen
  }

  /** Both pins go through interfaces that are not the adapter. */
  lemma PinsOutside(t: Tunnel)
    requires t.OnV4() && PicksSoundly(t.sys)
    requires Owned(t.before.routes, t.iface) && t.iface != t.Adapter() && t.gateway != t.Adapter()
    requires forall u :: u in t.before.routes && u.mask == ALL_ONES && u.dest == t.gateway ==> u.iface != t.Adapter()
    ensures t.GatewayPin().iface != t.Adapter() && t.ServerPin().iface != t.Adapter()
  {
    assert t.GatewayPin().iface == t.iface;
    var routes := t.before.routes + {t.GatewayPin()};
    assert Covers(t.GatewayPin(), t.gateway);
    BestExists(routes, t.gateway);
    if !Owned(routes, t.gateway) {
      var r :| IsBest(routes, r, t.gateway) && r.iface == t.ServerPin().iface;
      assert !Beats(t.GatewayPin(), r);
    }
  }

  lemma HostHolds(t: Tunnel, a: U32)
    requires t.OnV4() && Lists(t) && PicksSoundly(t.sys) && !Unpinned(t, a)
    requires Owned(t.before.routes, t.iface) && t.iface != t.Adapter() && t.gateway != t.Adapter()
    requires forall u :: u in t.before.routes && u.mask == ALL_ONES && u.dest in {a, t.gateway} ==>
                           u.iface != t.Adapter() && u.metric >= 2
    requires forall iface :: t.sys.cost(iface) >= 1
    ensures (forall r :: IsBest(t.Table(), r, a) ==> r.iface != t.Adapter()) <==> !NamesHost(t.cfg, a)
  {
    var after := t.Table();
    PinsOutside(t);
    var pin := if a == t.gateway then t.GatewayPin() else t.ServerPin();
    assert pin in after && Covers(pin, a);
    forall r | IsBest(after, r, a) && r.iface == t.Adapter() ensures NamesHost(t.cfg, a) {
      assert !Beats(pin, r);
      assert r.dest == a;
      PlannedHost(t, r);
    }
    if NamesHost(t.cfg, a) {
      var r := NamedHost(t, a);
      PlannedOnAdapter(t, r);
      forall q | q in after && Covers(q, a) ensures !Beats(q, r) {
        if q in t.Planned() { PlannedOnAdapter(t, q); }
        assert q.mask == ALL_ONES ==> q.dest == a;
      }
      assert IsBest(after, r, a);
    }
  }

  /** The gateway and the server stay outside the tunnel if and only if the configuration does not name them, as a
      name server or an allowed host, so that a planned host route of their own would compete. */
  lemma PinHolds(t: Tunnel, a: U32)
    requires !t.After().failed && Lists(t) && PicksSoundly(t.sys) && !Unpinned(t, a)
    requires Owned(t.before.routes, t.iface) && t.iface != t.Adapter() && t.gateway != t.Adapter()
    requires forall u :: u in t.before.routes && u.mask == ALL_ONES && u.dest in {a, t.gateway} ==>
                           u.iface != t.Adapter() && u.metric >= 2
    requires forall iface :: t.sys.cost(iface) >= 1
    ensures (forall r :: IsBest(t.After().machine.routes, r, a) ==> r.iface != t.Adapter()) <==> !NamesHost(t.cfg, a)
  {
    TableAfter(t);
    HostHolds(t, a);
  }

  // ----- what the listing must show

  /** A listing that shows the on-link subnets of the table as such, and only rows of the table's interfaces. */
  ghost predicate Shows(rows: seq<Row>, routes: set<Route>) {
    && (forall u :: u in routes && u.via == u.iface ==>
          exists row :: row in rows && row.dest == u.dest && row.mask == u.mask && row.iface == u.iface && OnLink(row.gateway))
    && (forall row :: row in rows && OnLink(row.gateway) ==> InTable(row, routes))
    && (forall row :: row in rows ==> Owned(routes, row.iface))
  }

  ghost predicate InTable(row: Row, routes: set<Route>) {
    exists u :: u in routes && u.via == u.iface == row.iface && u.dest == row.dest && u.mask == row.mask
  }

  lemma LinkShown(rows: seq<Row>, t: Tunnel, u: Route)
    requires Shows(rows, t.before.routes) && u in t.before.routes && IsLink(u, t.iface)
    ensures (u.dest, u.mask) in Lan(rows, t.iface, |rows|)
  {
    var row :| row in rows && row.dest == u.dest && row.mask == u.mask && row.iface == u.iface && OnLink(row.gateway);
    var k :| 0 <= k < |rows| && rows[k] == row;
    assert IsLan(rows[k], t.iface);
    LanMembers(rows, t.iface, |rows|, u.dest, u.mask);
  }

  lemma LanShown(rows: seq<Row>, t: Tunnel, dest: U32, mask: U32)
    requires Shows(rows, t.before.routes) && (dest, mask) in Lan(rows, t.iface, |rows|)
    ensures ShownLink(t, dest, mask)
  {
    LanMembers(rows, t.iface, |rows|, dest, mask);
    var i :| 0 <= i < |rows| && IsLan(rows[i], t.iface) && rows[i].dest == dest && rows[i].mask == mask;
    assert rows[i] in rows && InTable(rows[i], t.before.routes);
  }

  /** What is read off such a listing is what the tunnel needs to know. */
  lemma ReadingLists(r: Reader, rows: seq<Row>, t: Tunnel)
    requires Shows(rows, t.before.routes) && Reading(r, rows) == (Some((t.gateway, t.iface)), t.lan)
    ensures Lists(t) && Owned(t.before.routes, t.iface)
  {
    var best := Best(r, rows, |rows|);
    assert rows[best.value] in rows && t.iface == rows[best.value].iface && t.lan == Lan(rows, t.iface, |rows|);
    forall u | u in t.before.routes && IsLink(u, t.iface) ensures (u.dest, u.mask) in t.lan {
      LinkShown(rows, t, u);
    }
    forall k | 0 <= k < |t.lan| ensures ShownLink(t, t.lan[k].0, t.lan[k].1) {
      assert t.lan[k] in t.lan;
      LanShown(rows, t, t.lan[k].0, t.lan[k].1);
    }
  }
}
