/** The routing table once `open` has succeeded: the initial rows, the two pins and the planned rows, nothing else. */
module TunnelTable {
  import opened Basics
  import opened Prefixes
  import opened RouteTable
  import opened RoutePlan
  import opened RouteUndo

  // ----- the table after the plan

  /** The row a bound addition makes at interface metric 1. */
  function Bound(c: Cmd): Route
    requires c.RouteAdd? && c.dest.V4? && c.via.V4?
  {
    Route(c.dest.bits4, c.mask, c.via.bits4, c.via.bits4, 2)
  }

  predicate IsBound(c: Cmd) {
    c.RouteAdd? && c.bound && c.dest.V4? && c.via.V4?
  }

  /** The row may be there because of that command. */
  predicate Makes(c: Cmd, r: Route) {
    && c.RouteAdd? && c.dest == V4(r.dest) && c.mask == r.mask && c.via == V4(r.via)
    && (c.bound ==> r == Bound(c))
  }

  /** An addition that did not end the run worked. */
  lemma AddWorked(sys: System, s: State, c: Cmd)
    requires (c.RouteAdd? || c.Route6Add?) && !Perform(sys, s, c).failed
    ensures !s.failed && Succeeds(sys, s.ran, c) && Perform(sys, s, c).machine == Effect(sys, s.machine, c)
  {
  }

  lemma {:induction false} ExecHas(sys: System, s: State, cmds: seq<Cmd>, c: Cmd)
    requires OnlyAdds(cmds) && s.machine.metric4 == 1 && !Exec(sys, s, cmds).failed && c in cmds && c.RouteAdd?
    ensures c.dest.V4? && c.via.V4? && (exists i: nat :: sys.works(i, c))
    ensures c.bound ==> Bound(c) in Exec(sys, s, cmds).machine.routes
    decreases |cmds|
  {
    var n := |cmds| - 1;
    var init, last := cmds[..n], cmds[n];
    var before := Exec(sys, s, init);
    assert cmds == init + [last] && last in cmds;
    assert forall e :: e in init ==> e in cmds;
    AddWorked(sys, before, last);
    if c in init {
      ExecHas(sys, s, init, c);
      AddKeeps(sys, before.machine, last);
    } else {
      ExecMetric(sys, s, init, true);
    }
  }

  lemma AddKeeps(sys: System, m: Machine, c: Cmd)
    requires (c.RouteAdd? && c.dest.V4? && c.via.V4?) || c.Route6Add?
    ensures m.routes <= Effect(sys, m, c).routes && m.routes6 <= Effect(sys, m, c).routes6
  {
  }

  function MetricOf(m: Machine, v4: bool): nat {
    if v4 then m.metric4 else m.metric6
  }

  lemma PerformMetric(sys: System, s: State, c: Cmd, v4: bool)
    requires Opening(c) && !Perform(sys, s, c).failed && (MetricOf(s.machine, v4) == 1 || c == FixMetric(v4))
    ensures MetricOf(Perform(sys, s, c).machine, v4) == 1
  {
  }

  lemma {:induction false} ExecMetric(sys: System, s: State, cmds: seq<Cmd>, v4: bool)
    requires AllOpening(cmds) && !Exec(sys, s, cmds).failed
    requires MetricOf(s.machine, v4) == 1 || FixMetric(v4) in cmds
    ensures MetricOf(Exec(sys, s, cmds).machine, v4) == 1
    decreases |cmds|
  {
    if cmds != [] {
      var n := |cmds| - 1;
      assert cmds == cmds[..n] + [cmds[n]] && cmds[n] in cmds;
      assert forall e :: e in cmds[..n] ==> e in cmds;
      if MetricOf(s.machine, v4) == 1 || FixMetric(v4) in cmds[..n] {
        ExecMetric(sys, s, cmds[..n], v4);
      }
      PerformMetric(sys, Exec(sys, s, cmds[..n]), cmds[n], v4);
    }
  }

  /** A row an addition makes is made by it. */
  lemma AddMakes(sys: System, m: Machine, c: Cmd, r: Route)
    requires (c.RouteAdd? && c.dest.V4? && c.via.V4?) || c.Route6Add?
    requires m.metric4 == 1 && r in Effect(sys, m, c).routes && r !in m.routes
    ensures Makes(c, r)
  {
  }

  lemma {:induction false} ExecFrom(sys: System, s: State, cmds: seq<Cmd>, r: Route)
    requires OnlyAdds(cmds) && s.machine.metric4 == 1 && !Exec(sys, s, cmds).failed
    requires r in Exec(sys, s, cmds).machine.routes && r !in s.machine.routes
    ensures exists c :: c in cmds && Makes(c, r)
    decreases |cmds|
  {
    if cmds != [] {
      var n := |cmds| - 1;
      var before := Exec(sys, s, cmds[..n]);
      assert cmds[n] in cmds;
      assert forall e :: e in cmds[..n] ==> e in cmds;
      AddWorked(sys, before, cmds[n]);
      ExecMetric(sys, s, cmds[..n], true);
      if r in before.machine.routes {
        ExecFrom(sys, s, cmds[..n], r);
      } else {
        AddMakes(sys, before.machine, cmds[n], r);
      }
    }
  }

  lemma PerformKeeps(sys: System, s: State, c: Cmd)
    requires Opening(c)
    ensures s.machine.routes <= Perform(sys, s, c).machine.routes
    ensures !c.RouteAdd? ==> Perform(sys, s, c).machine.routes == s.machine.routes
    ensures !c.Route6Add? ==> Perform(sys, s, c).machine.routes6 == s.machine.routes6
  {
  }

  /** Opening takes no route away, and without additions it leaves the routes alone. */
  lemma {:induction false} ExecKeeps(sys: System, s: State, cmds: seq<Cmd>)
    requires AllOpening(cmds)
    ensures s.machine.routes <= Exec(sys, s, cmds).machine.routes
    ensures (forall c :: c in cmds ==> !c.RouteAdd?) ==> Exec(sys, s, cmds).machine.routes == s.machine.routes
    ensures (forall c :: c in cmds ==> !c.Route6Add?) ==> Exec(sys, s, cmds).machine.routes6 == s.machine.routes6
    decreases |cmds|
  {
    if cmds != [] {
      var n := |cmds| - 1;
      assert cmds[n] in cmds;
      assert forall e :: e in cmds[..n] ==> e in cmds;
      ExecKeeps(sys, s, cmds[..n]);
      PerformKeeps(sys, Exec(sys, s, cmds[..n]), cmds[n]);
    }
  }

  lemma {:induction false} ExecAddress(sys: System, s: State, cmds: seq<Cmd>, net: IpNet)
    requires !Exec(sys, s, cmds).failed && SetAddress(net) in cmds
    ensures net.addr.V4?
    decreases |cmds|
  {
    var n := |cmds| - 1;
    assert cmds == cmds[..n] + [cmds[n]];
    if cmds[n] != SetAddress(net) {
      ExecAddress(sys, s, cmds[..n], net);
    }
  }

  // ----- the commands of the plan

  lemma {:induction false} NetsMembers(ns: seq<IpNet>, ip: Ip, k: nat, c: Cmd)
    requires k <= |ns|
    ensures c in AddNets(ns, ip, k) <==> exists part :: part in ns[..k] && c == AddNet(part, ip)
  {
    if k > 0 {
      NetsMembers(ns, ip, k - 1, c);
      assert ns[..k] == ns[..k - 1] + [ns[k - 1]];
    }
  }

  lemma PartMembers(n: IpNet, ip: Ip, c: Cmd)
    ensures c in AddNets(Parts(n), ip, |Parts(n)|) <==> exists part :: part in Parts(n) && c == AddNet(part, ip)
  {
    NetsMembers(Parts(n), ip, |Parts(n)|, c);
    assert Parts(n)[..|Parts(n)|] == Parts(n);
  }

  ghost predicate FromOne(cfg: ClientConfig, c: Cmd, i: nat)
    requires i < |cfg.allowedIps|
  {
    exists part :: part in Parts(cfg.allowedIps[i]) && c == AddNet(part, cfg.address.addr)
  }

  ghost predicate FromAllowed(cfg: ClientConfig, c: Cmd, n: nat)
    requires n <= |cfg.allowedIps|
  {
    exists i :: 0 <= i < n && FromOne(cfg, c, i)
  }

  lemma AllowedLast(cfg: ClientConfig, n: nat, c: Cmd)
    requires 0 < n <= |cfg.allowedIps|
    ensures c in Allowed(cfg, n) <==> c in Allowed(cfg, n - 1) || FromOne(cfg, c, n - 1)
  {
    PartMembers(cfg.allowedIps[n - 1], cfg.address.addr, c);
  }

  lemma {:induction false} AllowedMembers(cfg: ClientConfig, n: nat, c: Cmd)
    requires n <= |cfg.allowedIps|
    ensures c in Allowed(cfg, n) <==> FromAllowed(cfg, c, n)
  {
    if n > 0 {
      AllowedMembers(cfg, n - 1, c);
      AllowedLast(cfg, n, c);
    }
  }

  lemma {:induction false} SwallowMembers(cfg: ClientConfig, lan: seq<(U32, U32)>, n: nat, c: Cmd)
    requires n <= |lan|
    ensures c in Swallow(cfg, lan, n) <==>
              exists k :: 0 <= k < n && !IsOwn(cfg, lan[k].0, lan[k].1)
                          && c == RouteAdd(V4(lan[k].0), lan[k].1, cfg.address.addr, true)
  {
    if n > 0 {
      SwallowMembers(cfg, lan, n - 1, c);
    }
  }

  lemma {:induction false} HostsMembers(cfg: ClientConfig, n: nat, c: Cmd)
    requires n <= |cfg.dns|
    ensures c in Hosts(cfg, n) <==> exists d :: d in cfg.dns[..n] && c == AddNet(Host(d), cfg.address.addr)
  {
    if n > 0 {
      HostsMembers(cfg, n - 1, c);
      assert cfg.dns[..n] == cfg.dns[..n - 1] + [cfg.dns[n - 1]];
    }
  }

  lemma {:induction false} HalvesMembers(cfg: ClientConfig, n: nat, c: Cmd)
    requires n <= 2
    ensures c in Halves(cfg, n) <==>
              exists k :: 0 <= k < n && HALVES[k] !in cfg.allowedIps && c == Route6Add(HALVES[k], true)
  {
    if n > 0 {
      HalvesMembers(cfg, n - 1, c);
    }
  }

  /** The plan re-adds that subnet of the LAN. */
  ghost predicate FromLan(cfg: ClientConfig, lan: seq<(U32, U32)>, c: Cmd) {
    FullTunnel(cfg) &&
    exists k :: 0 <= k < |lan| && !IsOwn(cfg, lan[k].0, lan[k].1)
                && c == RouteAdd(V4(lan[k].0), lan[k].1, cfg.address.addr, true)
  }

  ghost predicate FromDns(cfg: ClientConfig, c: Cmd) {
    exists d :: d in cfg.dns && c == AddNet(Host(d), cfg.address.addr)
  }

  ghost predicate FromHalves(cfg: ClientConfig, c: Cmd) {
    exists k :: 0 <= k < 2 && HALVES[k] !in cfg.allowedIps && c == Route6Add(HALVES[k], true)
  }

  /** Where each planned route comes from. */
  lemma ThroughMembers(cfg: ClientConfig, lan: seq<(U32, U32)>, c: Cmd)
    ensures c in Through(cfg, lan) <==>
              FromAllowed(cfg, c, |cfg.allowedIps|) || FromLan(cfg, lan, c) || FromHalves(cfg, c) || FromDns(cfg, c)
  {
    AllowedMembers(cfg, |cfg.allowedIps|, c);
    SwallowMembers(cfg, lan, |lan|, c);
    HostsMembers(cfg, |cfg.dns|, c);
    assert cfg.dns[..|cfg.dns|] == cfg.dns;
    HalvesMembers(cfg, 2, c);
  }

  lemma ThroughBound(cfg: ClientConfig, lan: seq<(U32, U32)>, c: Cmd)
    requires c in Through(cfg, lan) && c.RouteAdd?
    ensures c.bound && c.via == cfg.address.addr
  {
    ThroughMembers(cfg, lan, c);
  }

  /** The adapter's own subnet is the one row that names its first address under its mask. */
  lemma IsOwnExactly(cfg: ClientConfig, dest: U32, mask: U32)
    ensures IsOwn(cfg, dest, mask) <==>
              && cfg.address.addr.V4?
              && var block := Pow2(32 - cfg.address.len);
                 mask + block == 0x1_0000_0000 && dest == block * (cfg.address.addr.bits4 / block)
  {
    if cfg.address.addr.V4? {
      FloorMultiplies(cfg.address.addr.bits4, 32 - cfg.address.len);
    }
  }

  /** No server gets two host routes. */
  lemma {:induction false} HostsDistinct(cfg: ClientConfig, n: nat, i: nat, j: nat)
    requires n <= |cfg.dns| && i < j < |Hosts(cfg, n)|
    ensures Hosts(cfg, n)[i] != Hosts(cfg, n)[j]
  {
    if n > 0 {
      if j < |Hosts(cfg, n - 1)| {
        HostsDistinct(cfg, n - 1, i, j);
      } else {
        var c := Hosts(cfg, n - 1)[i];
        HostsMembers(cfg, n - 1, c);
        var d :| d in cfg.dns[..n - 1] && c == AddNet(Host(d), cfg.address.addr);
        assert d != cfg.dns[n - 1];
      }
    }
  }

  // ----- a tunnel that is up

  /** A run of `open` on a machine whose listing names that default route and LAN. */
  datatype Tunnel = Tunnel(
    sys: System, cfg: ClientConfig, server: Ip, gateway: U32, iface: U32, lan: seq<(U32, U32)>, before: Machine)
  {
    function Listed(): State {
      Perform(sys, Exec(sys, Start(before), Setup(cfg)), Print)
    }

    function After(): State {
      Opened(sys, cfg, server, Some((gateway, iface)), lan, Start(before))
    }

    function Cmds(): seq<Cmd> {
      Through(cfg, lan)
    }

    /** The adapter's own address, its interface's name. */
    function Adapter(): U32 {
      if cfg.address.addr.V4? then cfg.address.addr.bits4 else 0
    }

    predicate OnV4() {
      cfg.address.addr.V4? && server.V4?
    }

    /** No planned IPv4 route has host bits. */
    ghost predicate Aligned() {
      forall c :: c in Cmds() && c.RouteAdd? && c.dest.V4? ==> NoHostBits(c.dest.bits4, c.mask)
    }

    /** The IPv6 row an addition makes at interface metric 1. */
    function Bound6(c: Cmd): Route6
      requires c.Route6Add?
    {
      Route6(c.net6, true, if c.first then 2 else sys.default6 + 1)
    }

    function Planned6(): set<Route6> {
      set c | c in Cmds() && c.Route6Add? :: Bound6(c)
    }

    function Planned(): set<Route> {
      set c | c in Cmds() && IsBound(c) :: Bound(c)
    }

    /** A host route for which the system picks the interface. */
    function Pin(routes: set<Route>, host: U32, via: U32): Route {
      var chosen := sys.pick(routes, via);
      Route(host, ALL_ONES, via, chosen, 1 + sys.cost(chosen))
    }

    function GatewayPin(): Route {
      Pin(before.routes, gateway, iface)
    }

    function Table(): set<Route> {
      before.routes + {GatewayPin(), ServerPin()} + Planned()
    }

    function ServerPin(): Route {
      Pin(before.routes + {GatewayPin()}, if server.V4? then server.bits4 else 0, gateway)
    }
  }

  lemma SetUpWorked(sys: System, cfg: ClientConfig, m: Machine)
    requires !Exec(sys, Start(m), Setup(cfg)).failed
    ensures var s := Exec(sys, Start(m), Setup(cfg)).machine;
            cfg.address.addr.V4? && s.metric4 == 1 && s.metric6 == 1 && s.routes == m.routes && s.routes6 == m.routes6
  {
    var setup, s := Setup(cfg), Start(m);
    SetupOpens(cfg);
    SetupMembers(cfg, SetAddress(cfg.address));
    SetupMembers(cfg, FixMetric(true));
    SetupMembers(cfg, FixMetric(false));
    ExecMetric(sys, s, setup, true);
    ExecMetric(sys, s, setup, false);
    ExecAddress(sys, s, setup, cfg.address);
    ExecKeeps(sys, s, setup);
  }

  lemma UpListed(t: Tunnel)
    requires !t.After().failed
    ensures !t.Listed().failed && !Exec(t.sys, Start(t.before), Setup(t.cfg)).failed
    ensures t.Listed().machine == Exec(t.sys, Start(t.before), Setup(t.cfg)).machine
    ensures t.After() == Exec(t.sys, t.Listed(), Pins(t.server, t.gateway, t.iface) + t.Cmds())
  {
  }

  lemma SetUp(t: Tunnel)
    requires !t.After().failed
    ensures t.cfg.address.addr.V4? && t.Listed().machine.metric4 == t.Listed().machine.metric6 == 1 && !t.Listed().failed
    ensures t.Listed().machine.routes == t.before.routes && t.Listed().machine.routes6 == t.before.routes6
  {
    UpListed(t);
    SetUpWorked(t.sys, t.cfg, t.before);
  }

  lemma TwoCmds(sys: System, s: State, a: Cmd, b: Cmd)
    ensures Exec(sys, s, [a, b]) == Perform(sys, Perform(sys, s, a), b)
  {
    assert [a, b] == [] + [a] + [b] && [] + [a] == [a];
    Snoc(sys, s, [], a);
    Snoc(sys, s, [a], b);
  }

  lemma PinsFirst(t: Tunnel)
    requires !t.After().failed
    ensures t.server.V4?
    ensures var pinned := Exec(t.sys, t.Listed(), Pins(t.server, t.gateway, t.iface));
            && t.After() == Exec(t.sys, pinned, t.Cmds()) && pinned.machine.metric4 == 1 && !pinned.failed
            && pinned.machine.routes == t.before.routes + {t.GatewayPin(), t.ServerPin()}
            && pinned.machine.routes6 == t.before.routes6 && pinned.machine.metric6 == 1
  {
    SetUp(t);
    UpListed(t);
    var pins := Pins(t.server, t.gateway, t.iface);
    ExecAppend(t.sys, t.Listed(), pins, t.Cmds());
    TwoCmds(t.sys, t.Listed(), pins[0], pins[1]);
    var two := Exec(t.sys, t.Listed(), pins);
    if two.failed { FailedStays(t.sys, two, t.Cmds()); }
    PinsMade(t);
  }

  lemma FirstPinMade(t: Tunnel, s: State, c: Cmd)
    requires s.machine.routes == t.before.routes && c == Pins(t.server, t.gateway, t.iface)[0]
    requires !Perform(t.sys, s, c).failed
    ensures Perform(t.sys, s, c).machine == s.machine.(routes := t.before.routes + {t.GatewayPin()})
  {
    AddWorked(t.sys, s, c);
  }

  lemma SecondPinMade(t: Tunnel, s: State, c: Cmd)
    requires s.machine.routes == t.before.routes + {t.GatewayPin()} && c == Pins(t.server, t.gateway, t.iface)[1]
    requires !Perform(t.sys, s, c).failed
    ensures t.server.V4?
    ensures Perform(t.sys, s, c).machine
            == s.machine.(routes := t.before.routes + {t.GatewayPin()} + {t.ServerPin()})
  {
    AddWorked(t.sys, s, c);
  }

  lemma PinsMade(t: Tunnel)
    requires t.Listed().machine.routes == t.before.routes && !t.Listed().failed
    requires t.Listed().machine.metric4 == t.Listed().machine.metric6 == 1
    requires !Exec(t.sys, t.Listed(), Pins(t.server, t.gateway, t.iface)).failed
    ensures t.server.V4?
    ensures var pinned := Exec(t.sys, t.Listed(), Pins(t.server, t.gateway, t.iface)).machine;
            && pinned.metric4 == 1 && pinned.routes == t.before.routes + {t.GatewayPin(), t.ServerPin()}
            && pinned.routes6 == t.Listed().machine.routes6 && pinned.metric6 == 1
  {
    var pins, s := Pins(t.server, t.gateway, t.iface), t.Listed();
    TwoCmds(t.sys, s, pins[0], pins[1]);
    var one := Perform(t.sys, s, pins[0]);
    AddWorked(t.sys, one, pins[1]);
    FirstPinMade(t, s, pins[0]);
    SecondPinMade(t, one, pins[1]);
  }

  /** The routes through the adapter add just the planned rows. */
  lemma ThroughMakes(t: Tunnel, s: State)
    requires s.machine.metric4 == 1 && !Exec(t.sys, s, t.Cmds()).failed
    ensures Exec(t.sys, s, t.Cmds()).machine.routes == s.machine.routes + t.Planned()
  {
    ThroughOpens(t.cfg, t.lan);
    ExecKeeps(t.sys, s, t.Cmds());
    var after := Exec(t.sys, s, t.Cmds()).machine.routes;
    forall r | r in t.Planned() ensures r in after {
      var c :| c in t.Cmds() && IsBound(c) && r == Bound(c);
      ExecHas(t.sys, s, t.Cmds(), c);
    }
    forall r | r in after && r !in s.machine.routes ensures r in t.Planned() {
      ExecFrom(t.sys, s, t.Cmds(), r);
      var c :| c in t.Cmds() && Makes(c, r);
      ThroughBound(t.cfg, t.lan, c);
    }
  }

  /** The routing table of a tunnel that is up: the initial rows, the two pins, and a row through the adapter for
      each planned route. */
  lemma TableAfter(t: Tunnel)
    requires !t.After().failed
    ensures t.OnV4() && t.After().machine.routes == t.Table() && (RefusesHostBits(t.sys) ==> t.Aligned())
  {
    SetUp(t);
    PinsFirst(t);
    var pinned := Exec(t.sys, t.Listed(), Pins(t.server, t.gateway, t.iface));
    ThroughMakes(t, pinned);
    ThroughOpens(t.cfg, t.lan);
    forall c | RefusesHostBits(t.sys) && c in t.Cmds() && c.RouteAdd? && c.dest.V4?
      ensures NoHostBits(c.dest.bits4, c.mask)
    {
      ExecHas(t.sys, pinned, t.Cmds(), c);
    }
  }

  /** A default route that is allowed stands in the table itself besides its two halves. */
  lemma DefaultStands(t: Tunnel, n: IpNet, part: IpNet)
    requires !t.After().failed && n in t.cfg.allowedIps && IsDefault4(n)
    requires part == n || part == Prefix(V4(0), 1) || part == Prefix(V4(0x8000_0000), 1)
    ensures Route(part.addr.bits4, Mask4(part.len), t.Adapter(), t.Adapter(), 2) in t.After().machine.routes
  {
    TableAfter(t);
    var i :| 0 <= i < |t.cfg.allowedIps| && t.cfg.allowedIps[i] == n;
    var c := AddNet(part, t.cfg.address.addr);
    assert Parts(n)[0] == Prefix(V4(0), 1) && Parts(n)[1] == Prefix(V4(0x8000_0000), 1) && Parts(n)[2] == n;
    assert FromOne(t.cfg, c, i);
    ThroughMembers(t.cfg, t.lan, c);
    assert IsBound(c) && Bound(c) in t.Planned();
  }

  ghost predicate Made6(t: Tunnel, cmds: seq<Cmd>, r: Route6) {
    exists c :: c in cmds && c.Route6Add? && r == t.Bound6(c)
  }

  lemma Made6Snoc(t: Tunnel, cmds: seq<Cmd>, c: Cmd, r: Route6)
    ensures Made6(t, cmds + [c], r) <==> Made6(t, cmds, r) || (c.Route6Add? && r == t.Bound6(c))
  {
    if c.Route6Add? && r == t.Bound6(c) {
      assert c in cmds + [c];
    }
    if d :| d in cmds && d.Route6Add? && r == t.Bound6(d) {
      assert d in cmds + [c];
    }
  }

  lemma Add6Makes(t: Tunnel, m: Machine, c: Cmd, r: Route6)
    requires (c.RouteAdd? && c.dest.V4? && c.via.V4?) || c.Route6Add?
    requires m.metric6 == 1
    ensures r in Effect(t.sys, m, c).routes6 <==> r in m.routes6 || (c.Route6Add? && r == t.Bound6(c))
  {
  }

  lemma {:induction false} ExecAdds6(t: Tunnel, s: State, cmds: seq<Cmd>, r: Route6)
    requires OnlyAdds(cmds) && !Exec(t.sys, s, cmds).failed && s.machine.metric6 == 1
    ensures r in Exec(t.sys, s, cmds).machine.routes6 <==> r in s.machine.routes6 || Made6(t, cmds, r)
    decreases |cmds|
  {
    if cmds != [] {
      var n := |cmds| - 1;
      var init, c := cmds[..n], cmds[n];
      var before := Exec(t.sys, s, init);
      assert cmds == init + [c] && c in cmds;
      assert forall e :: e in init ==> e in cmds;
      AddWorked(t.sys, before, c);
      ExecMetric(t.sys, s, init, false);
      ExecAdds6(t, s, init, r);
      Add6Makes(t, before.machine, c, r);
      Made6Snoc(t, init, c, r);
    }
  }

  /** The same for IPv6, where nothing is pinned. */
  lemma Table6After(t: Tunnel)
    requires !t.After().failed
    ensures t.After().machine.routes6 == t.before.routes6 + t.Planned6()
  {
    PinsFirst(t);
    ThroughOpens(t.cfg, t.lan);
    var pinned := Exec(t.sys, t.Listed(), Pins(t.server, t.gateway, t.iface));
    forall r ensures r in t.After().machine.routes6 <==> r in t.before.routes6 + t.Planned6() {
      ExecAdds6(t, pinned, t.Cmds(), r);
      assert r in t.Planned6() <==> Made6(t, t.Cmds(), r);
    }
  }

  lemma PlannedOnAdapter(t: Tunnel, r: Route)
    requires t.OnV4() && r in t.Planned()
    ensures r.iface == t.Adapter() && r.metric == 2
  {
    var c :| c in t.Cmds() && IsBound(c) && r == Bound(c);
    ThroughBound(t.cfg, t.lan, c);
  }
}
