/** Bringing the Windows adapter up and down: the commands `open` runs, in order, what they do to the system, and
    the undo log that dropping the adapter replays. Any command may fail; a failed command has no effect. */
module RoutePlan {
  import opened Basics
  import opened Prefixes
  import opened RouteTable

  datatype ClientConfig = ClientConfig(address: IpNet, dns: seq<Ip>, allowedIps: seq<IpNet>, mtu: U16)

  // ----- the system

  /** An IPv4 route. An interface is named by its address, and a next hop equal to it means on-link. `metric` is
      the route's own metric plus its interface's. */
  datatype Route = Route(dest: U32, mask: U32, via: U32, iface: U32, metric: nat)

  /** An IPv6 route, on the adapter or elsewhere. */
  datatype Route6 = Route6(net: IpNet, ours: bool, metric: nat)

  datatype Rule = Rule(comment: string, servers: seq<Ip>)

  datatype Machine = Machine(
    routes: set<Route>, routes6: set<Route6>, rules: set<Rule>, metric4: nat, metric6: nat, auto4: bool,
    auto6: bool)

  datatype Cmd =
    | SetAddress(net: IpNet)
    | SetMtu(mtu: U16)
    | FixMetric(v4: bool)
    | AutoMetric(v4: bool)
    | SetDns(server: Ip)
    | AddDns(server: Ip, index: nat)
    | ResetDns
    | ClearRules
    | AddRule(servers: seq<Ip>)
    | Flush
    | Print
    | RouteAdd(dest: Ip, mask: U32, via: Ip, bound: bool)
    | RouteDelete(dest: Ip, mask: U32, via: Ip)
    | Route6Add(net6: IpNet, first: bool)
    | Route6Delete(net6: IpNet)

  /** What is not ours to decide: which runs of a command work, the interface chosen for an IPv4 route that names
      none, interface metrics, and the metric of an IPv6 route added without one. */
  datatype System = System(
    works: (nat, Cmd) -> bool, pick: (set<Route>, U32) -> U32, cost: U32 -> nat, default6: nat)

  const NAME: string := "wg-wrapper"

  function Mask4(len: nat): (mask: U32)
    requires len <= 32
    ensures mask + Pow2(32 - len) == 0x1_0000_0000
  {
    Width4();
    if len == 0 then 0 else 0x8000_0000 + Mask4(len - 1) / 2
  }

  /** The mask is that of a prefix, and the destination has no bits under it. */
  predicate NoHostBits(dest: U32, mask: U32) {
    exists len :: 0 <= len <= 32 && mask == Mask4(len) && Floor(dest, 32 - len) == dest
  }

  /** `route add` refuses a destination with host bits. */
  ghost predicate RefusesHostBits(sys: System) {
    forall ran, c :: sys.works(ran, c) && c.RouteAdd? && c.dest.V4? ==> NoHostBits(c.dest.bits4, c.mask)
  }

  /** It knows IPv4 only. */
  predicate Succeeds(sys: System, ran: nat, c: Cmd) {
    && sys.works(ran, c)
    && (c.SetAddress? ==> c.net.addr.V4?)
    && (c.RouteAdd? ==> c.dest.V4? && c.via.V4?)
  }

  function DeleteOf(r: Route): Cmd {
    RouteDelete(V4(r.dest), r.mask, V4(r.via))
  }

  predicate Ours(r: Rule) {
    r.comment == NAME
  }

  /** The row an addition makes. A bound one names the adapter, whose own address is its next hop. */
  function Added(sys: System, m: Machine, c: Cmd): Route
    requires c.RouteAdd? && c.dest.V4? && c.via.V4?
  {
    var via := c.via.bits4;
    if c.bound then Route(c.dest.bits4, c.mask, via, via, 1 + m.metric4)
    else
      var iface := sys.pick(m.routes, via);
      Route(c.dest.bits4, c.mask, via, iface, 1 + sys.cost(iface))
  }

  function Added6(sys: System, m: Machine, c: Cmd): Route6
    requires c.Route6Add?
  {
    Route6(c.net6, true, (if c.first then 1 else sys.default6) + m.metric6)
  }

  function Effect(sys: System, m: Machine, c: Cmd): Machine
    requires c.RouteAdd? ==> c.dest.V4? && c.via.V4?
  {
    match c
    case FixMetric(v4) => if v4 then m.(metric4 := 1, auto4 := false) else m.(metric6 := 1, auto6 := false)
    case AutoMetric(v4) => if v4 then m.(auto4 := true) else m.(auto6 := true)
    case ClearRules => m.(rules := set r | r in m.rules && !Ours(r))
    case AddRule(servers) => m.(rules := m.rules + {Rule(NAME, servers)})
    case RouteAdd(_, _, _, _) => m.(routes := m.routes + {Added(sys, m, c)})
    case RouteDelete(_, _, _) => m.(routes := set r | r in m.routes && DeleteOf(r) != c)
    case Route6Add(_, _) => m.(routes6 := m.routes6 + {Added6(sys, m, c)})
    case Route6Delete(net) => m.(routes6 := set r | r in m.routes6 && !(r.ours && r.net == net))
    case _ => m
  }

  // ----- the plan

  function V4Servers(dns: seq<Ip>): seq<Ip> {
    if dns == [] then []
    else V4Servers(dns[..|dns| - 1]) + if dns[|dns| - 1].V4? then [dns[|dns| - 1]] else []
  }

  /** The further servers, numbered from 2. */
  function MoreDns(dns: seq<Ip>, n: nat): seq<Cmd>
    requires n < |dns|
  {
    if n == 0 then [] else MoreDns(dns, n - 1) + [AddDns(dns[n], n + 1)]
  }

  function RuleCmds(servers: seq<Ip>): seq<Cmd> {
    if servers == [] then [] else [ClearRules, AddRule(servers)]
  }

  function DnsCmds(dns: seq<Ip>): seq<Cmd> {
    if dns == [] then [] else [SetDns(dns[0])] + MoreDns(dns, |dns| - 1) + RuleCmds(V4Servers(dns)) + [Flush]
  }

  function Setup(cfg: ClientConfig): seq<Cmd> {
    [SetAddress(cfg.address), SetMtu(cfg.mtu), FixMetric(true), FixMetric(false)] + DnsCmds(cfg.dns)
  }

  function Pins(server: Ip, gateway: U32, iface: U32): seq<Cmd> {
    [RouteAdd(V4(gateway), ALL_ONES, V4(iface), false), RouteAdd(server, ALL_ONES, V4(gateway), false)]
  }

  predicate IsDefault4(n: IpNet) {
    n.addr.V4? && n.len == 0
  }

  /** An IPv4 default route becomes its two halves, followed by itself. */
  function Parts(n: IpNet): seq<IpNet> {
    if IsDefault4(n) then [Prefix(V4(0), 1), Prefix(V4(0x8000_0000), 1), n] else [n]
  }

  function AddNet(n: IpNet, ip: Ip): Cmd {
    if n.addr.V4? then RouteAdd(n.addr, Mask4(n.len), ip, true) else Route6Add(n, false)
  }

  function AddNets(ns: seq<IpNet>, ip: Ip, k: nat): seq<Cmd>
    requires k <= |ns|
  {
    if k == 0 then [] else AddNets(ns, ip, k - 1) + [AddNet(ns[k - 1], ip)]
  }

  function Allowed(cfg: ClientConfig, n: nat): seq<Cmd>
    requires n <= |cfg.allowedIps|
  {
    if n == 0 then []
    else
      var parts := Parts(cfg.allowedIps[n - 1]);
      Allowed(cfg, n - 1) + AddNets(parts, cfg.address.addr, |parts|)
  }

  predicate FullTunnel(cfg: ClientConfig) {
    exists i :: 0 <= i < |cfg.allowedIps| && IsDefault4(cfg.allowedIps[i])
  }

  /** The adapter's own subnet. */
  predicate IsOwn(cfg: ClientConfig, dest: U32, mask: U32) {
    cfg.address.addr.V4? && dest == Network(cfg.address) && mask == Mask4(cfg.address.len)
  }

  function Swallow(cfg: ClientConfig, lan: seq<(U32, U32)>, n: nat): seq<Cmd>
    requires n <= |lan|
  {
    if n == 0 then []
    else if IsOwn(cfg, lan[n - 1].0, lan[n - 1].1) then Swallow(cfg, lan, n - 1)
    else Swallow(cfg, lan, n - 1) + [RouteAdd(V4(lan[n - 1].0), lan[n - 1].1, cfg.address.addr, true)]
  }

  const HALVES: seq<IpNet> := [Prefix(V6(0), 1), Prefix(V6(0x8000_0000_0000_0000_0000_0000_0000_0000), 1)]

  function Halves(cfg: ClientConfig, n: nat): seq<Cmd>
    requires n <= 2
  {
    if n == 0 then []
    else if HALVES[n - 1] in cfg.allowedIps then Halves(cfg, n - 1)
    else Halves(cfg, n - 1) + [Route6Add(HALVES[n - 1], true)]
  }

  function Host(ip: Ip): IpNet {
    Prefix(ip, ip.Width())
  }

  /** A host route for each distinct server. */
  function Hosts(cfg: ClientConfig, n: nat): seq<Cmd>
    requires n <= |cfg.dns|
  {
    if n == 0 then []
    else if cfg.dns[n - 1] in cfg.dns[..n - 1] then Hosts(cfg, n - 1)
    else Hosts(cfg, n - 1) + [AddNet(Host(cfg.dns[n - 1]), cfg.address.addr)]
  }

  function LanPart(cfg: ClientConfig, lan: seq<(U32, U32)>): seq<Cmd> {
    if FullTunnel(cfg) then Swallow(cfg, lan, |lan|) else []
  }

  /** The routes through the adapter. */
  function Through(cfg: ClientConfig, lan: seq<(U32, U32)>): seq<Cmd> {
    Allowed(cfg, |cfg.allowedIps|) + LanPart(cfg, lan) + Halves(cfg, 2) + Hosts(cfg, |cfg.dns|)
  }

  function Plan(cfg: ClientConfig, server: Ip, gateway: U32, iface: U32, lan: seq<(U32, U32)>): seq<Cmd> {
    Pins(server, gateway, iface) + Through(cfg, lan)
  }

  // ----- running it

  /** `ran` counts the commands run so far. */
  datatype State = State(machine: Machine, undo: seq<Cmd>, dns: bool, ran: nat, failed: bool)

  function Start(m: Machine): State {
    State(m, [], false, 0, false)
  }

  function Inverse(c: Cmd): seq<Cmd> {
    match c
    case FixMetric(v4) => [AutoMetric(v4)]
    case AddRule(_) => [ClearRules]
    case RouteAdd(dest, mask, via, _) => [RouteDelete(dest, mask, via)]
    case Route6Add(net, _) => [Route6Delete(net)]
    case _ => []
  }

  /** One command of `open`: a failure ends it, except that clearing old rules may fail. */
  function Perform(sys: System, s: State, c: Cmd): State {
    if s.failed then s
    else if !Succeeds(sys, s.ran, c) then s.(ran := s.ran + 1, failed := !c.ClearRules?)
    else
      s.(machine := Effect(sys, s.machine, c), undo := s.undo + Inverse(c), dns := s.dns || c.Flush?, ran := s.ran + 1)
  }

  function Exec(sys: System, s: State, cmds: seq<Cmd>): State {
    if cmds == [] then s else Perform(sys, Exec(sys, s, cmds[..|cmds| - 1]), cmds[|cmds| - 1])
  }

  /** All of `open`, given what the route listing says when it is printed. */
  function Opened(sys: System, cfg: ClientConfig, server: Ip, default: Option<(U32, U32)>, lan: seq<(U32, U32)>, s: State)
    : State
  {
    var listed := Perform(sys, Exec(sys, s, Setup(cfg)), Print);
    if listed.failed then listed
    else
      match default
      case None => listed.(failed := true)
      case Some((gateway, iface)) => Exec(sys, listed, Plan(cfg, server, gateway, iface, lan))
  }

  /** Dropping the adapter runs the log from its end and ignores failures. */
  function Replay(sys: System, m: Machine, ran: nat, undo: seq<Cmd>): Machine
    requires forall c :: c in undo ==> !c.RouteAdd?
    decreases |undo|
  {
    if undo == [] then m
    else
      var c := undo[|undo| - 1];
      Replay(sys, if Succeeds(sys, ran, c) then Effect(sys, m, c) else m, ran + 1, undo[..|undo| - 1])
  }

  lemma {:induction false} ExecAppend(sys: System, s: State, a: seq<Cmd>, b: seq<Cmd>)
    ensures Exec(sys, s, a + b) == Exec(sys, Exec(sys, s, a), b)
    decreases |b|
  {
    if b == [] {
      assert a + b == a;
    } else {
      assert (a + b)[..|a + b| - 1] == a + b[..|b| - 1];
      ExecAppend(sys, s, a, b[..|b| - 1]);
    }
  }

  lemma {:induction false} FailedStays(sys: System, s: State, cmds: seq<Cmd>)
    requires s.failed
    ensures Exec(sys, s, cmds) == s
    decreases |cmds|
  {
    if cmds != [] {
      FailedStays(sys, s, cmds[..|cmds| - 1]);
    }
  }

  lemma Snoc(sys: System, s: State, cmds: seq<Cmd>, c: Cmd)
    ensures Exec(sys, s, cmds + [c]) == Perform(sys, Exec(sys, s, cmds), c)
  {
    assert (cmds + [c])[..|cmds|] == cmds;
  }

  /** A run that fails within a part of the plan has failed with the whole. */
  lemma Stops(sys: System, s: State, part: seq<Cmd>, whole: seq<Cmd>)
    requires part <= whole && Exec(sys, s, part).failed
    ensures Exec(sys, s, whole) == Exec(sys, s, part)
  {
    assert whole == part + whole[|part|..];
    ExecAppend(sys, s, part, whole[|part|..]);
    FailedStays(sys, Exec(sys, s, part), whole[|part|..]);
  }

  // ----- the adapter

  lemma {:induction false} AllowedGrows(cfg: ClientConfig, i: nat, n: nat)
    requires i <= n <= |cfg.allowedIps|
    ensures Allowed(cfg, i) <= Allowed(cfg, n)
  {
    if i < n {
      AllowedGrows(cfg, i, n - 1);
      assert Allowed(cfg, n - 1) <= Allowed(cfg, n);
    }
  }

  lemma {:induction false} SwallowGrows(cfg: ClientConfig, lan: seq<(U32, U32)>, i: nat, n: nat)
    requires i <= n <= |lan|
    ensures Swallow(cfg, lan, i) <= Swallow(cfg, lan, n)
  {
    if i < n {
      SwallowGrows(cfg, lan, i, n - 1);
    }
  }

  lemma {:induction false} HostsGrow(cfg: ClientConfig, i: nat, n: nat)
    requires i <= n <= |cfg.dns|
    ensures Hosts(cfg, i) <= Hosts(cfg, n)
  {
    if i < n {
      HostsGrow(cfg, i, n - 1);
    }
  }

  lemma AllowedStep(sys: System, s: State, cfg: ClientConfig, i: nat)
    requires i < |cfg.allowedIps|
    ensures var parts := Parts(cfg.allowedIps[i]);
            Exec(sys, s, Allowed(cfg, i + 1))
            == Exec(sys, Exec(sys, s, Allowed(cfg, i)), AddNets(parts, cfg.address.addr, |parts|))
  {
    var parts := Parts(cfg.allowedIps[i]);
    ExecAppend(sys, s, Allowed(cfg, i), AddNets(parts, cfg.address.addr, |parts|));
  }

  lemma AllowedStops(sys: System, s: State, cfg: ClientConfig, i: nat)
    requires i <= |cfg.allowedIps| && Exec(sys, s, Allowed(cfg, i)).failed
    ensures Exec(sys, s, Allowed(cfg, |cfg.allowedIps|)) == Exec(sys, s, Allowed(cfg, i))
  {
    AllowedGrows(cfg, i, |cfg.allowedIps|);
    Stops(sys, s, Allowed(cfg, i), Allowed(cfg, |cfg.allowedIps|));
  }

  lemma HalfStep(sys: System, s: State, cfg: ClientConfig, i: nat)
    requires i < 2
    ensures var s' := Exec(sys, s, Halves(cfg, i));
            Exec(sys, s, Halves(cfg, i + 1))
            == if HALVES[i] in cfg.allowedIps then s' else Perform(sys, s', Route6Add(HALVES[i], true))
  {
    Snoc(sys, s, Halves(cfg, i), Route6Add(HALVES[i], true));
  }

  lemma HalvesStop(sys: System, s: State, cfg: ClientConfig, i: nat)
    requires i <= 2 && Exec(sys, s, Halves(cfg, i)).failed
    ensures Exec(sys, s, Halves(cfg, 2)) == Exec(sys, s, Halves(cfg, i))
  {
    if i < 2 {
      HalvesGrow(cfg, i, 2);
    }
    Stops(sys, s, Halves(cfg, i), Halves(cfg, 2));
  }

  lemma {:induction false} HalvesGrow(cfg: ClientConfig, i: nat, n: nat)
    requires i <= n <= 2
    ensures Halves(cfg, i) <= Halves(cfg, n)
  {
    if i < n {
      HalvesGrow(cfg, i, n - 1);
    }
  }

  lemma HostStep(sys: System, s: State, cfg: ClientConfig, i: nat)
    requires i < |cfg.dns|
    ensures var s' := Exec(sys, s, Hosts(cfg, i));
            Exec(sys, s, Hosts(cfg, i + 1))
            == if cfg.dns[i] in cfg.dns[..i] then s' else Perform(sys, s', AddNet(Host(cfg.dns[i]), cfg.address.addr))
  {
    Snoc(sys, s, Hosts(cfg, i), AddNet(Host(cfg.dns[i]), cfg.address.addr));
  }

  lemma HostsStop(sys: System, s: State, cfg: ClientConfig, i: nat)
    requires i <= |cfg.dns| && Exec(sys, s, Hosts(cfg, i)).failed
    ensures Exec(sys, s, Hosts(cfg, |cfg.dns|)) == Exec(sys, s, Hosts(cfg, i))
  {
    HostsGrow(cfg, i, |cfg.dns|);
    Stops(sys, s, Hosts(cfg, i), Hosts(cfg, |cfg.dns|));
  }

  /** The log holds inverses, none of which adds an IPv4 route. */
  ghost predicate Inverses(undo: seq<Cmd>) {
    forall c :: c in undo ==> !c.RouteAdd?
  }

  class Adapter {
    const sys: System
    var machine: Machine
    var undo: seq<Cmd>
    var dns: bool
    var ran: nat
    ghost var failed: bool

    ghost function Abs(): State
      reads this
    {
      State(machine, undo, dns, ran, failed)
    }

    constructor (sys: System, machine: Machine)
      ensures this.sys == sys && Abs() == Start(machine)
    {
      this.sys, this.machine, undo, dns, ran, failed := sys, machine, [], false, 0, false;
    }

    /** Runs a command of `open` and logs how to undo it once it has worked. */
    method Do(c: Cmd) returns (ok: bool)
      requires !failed
      modifies this
      ensures Abs() == Perform(sys, old(Abs()), c) && ok == !failed
    {
      ok := Succeeds(sys, ran, c);
      ran := ran + 1;
      if ok {
        machine := Effect(sys, machine, c);
        undo := undo + Inverse(c);
        dns := dns || c.Flush?;
      } else {
        ok := c.ClearRules?;
        failed := !ok;
      }
    }

    /** A fixed list of commands, each after the one before has worked. */
    method DoAll(cmds: seq<Cmd>) returns (ok: bool)
      requires !failed
      modifies this
      ensures Abs() == Exec(sys, old(Abs()), cmds) && ok == !failed
    {
      var i := 0;
      while i < |cmds|
        invariant i <= |cmds| && !failed
        invariant Abs() == Exec(sys, old(Abs()), cmds[..i])
      {
        ok := Do(cmds[i]);
        assert cmds[..i + 1] == cmds[..i] + [cmds[i]];
        Snoc(sys, old(Abs()), cmds[..i], cmds[i]);
        i := i + 1;
        if !ok {
          Stops(sys, old(Abs()), cmds[..i], cmds);
          return;
        }
      }
      assert cmds[..|cmds|] == cmds;
      ok := true;
    }

    method SetUpDns(servers: seq<Ip>) returns (ok: bool)
      requires !failed
      modifies this
      ensures Abs() == Exec(sys, old(Abs()), DnsCmds(servers)) && ok == !failed
    {
      if servers == [] { return true; }
      ghost var s, all := Abs(), DnsCmds(servers);
      ok := Do(SetDns(servers[0]));
      Snoc(sys, s, [], SetDns(servers[0]));
      assert [] + [SetDns(servers[0])] == [SetDns(servers[0])];
      if !ok {
        Stops(sys, s, [SetDns(servers[0])], all);
        return;
      }
      ok := DoAll(MoreDns(servers, |servers| - 1));
      ExecAppend(sys, s, [SetDns(servers[0])], MoreDns(servers, |servers| - 1));
      if !ok {
        Stops(sys, s, [SetDns(servers[0])] + MoreDns(servers, |servers| - 1), all);
        return;
      }
      var own := V4Servers(servers);
      ghost var upTo := [SetDns(servers[0])] + MoreDns(servers, |servers| - 1);
      if own != [] {
        ok := DoAll([ClearRules, AddRule(own)]);
      }
      ExecAppend(sys, s, upTo, RuleCmds(own));
      if !ok {
        Stops(sys, s, upTo + RuleCmds(own), all);
        return;
      }
      ok := Do(Flush);
      Snoc(sys, s, upTo + RuleCmds(own), Flush);
    }

    method RouteOne(n: IpNet, ip: Ip) returns (ok: bool)
      requires !failed
      modifies this
      ensures Abs() == Perform(sys, old(Abs()), AddNet(n, ip)) && ok == !failed
    {
      if n.addr.V4? {
        ok := Do(RouteAdd(n.addr, Mask4(n.len), ip, true));
      } else {
        ok := Do(Route6Add(n, false));
      }
    }

    method RouteAllowed(cfg: ClientConfig) returns (ok: bool)
      requires !failed
      modifies this
      ensures Abs() == Exec(sys, old(Abs()), Allowed(cfg, |cfg.allowedIps|)) && ok == !failed
    {
      var i := 0;
      while i < |cfg.allowedIps|
        invariant i <= |cfg.allowedIps| && !failed
        invariant Abs() == Exec(sys, old(Abs()), Allowed(cfg, i))
      {
        var parts := Parts(cfg.allowedIps[i]);
        ok := DoAll(AddNets(parts, cfg.address.addr, |parts|));
        AllowedStep(sys, old(Abs()), cfg, i);
        i := i + 1;
        if !ok {
          AllowedStops(sys, old(Abs()), cfg, i);
          return;
        }
      }
      ok := true;
    }

    method SwallowLan(cfg: ClientConfig, lan: seq<(U32, U32)>) returns (ok: bool)
      requires !failed
      modifies this
      ensures Abs() == Exec(sys, old(Abs()), LanPart(cfg, lan)) && ok == !failed
    {
      if !FullTunnel(cfg) { return true; }
      var i := 0;
      while i < |lan|
        invariant i <= |lan| && !failed
        invariant Abs() == Exec(sys, old(Abs()), Swallow(cfg, lan, i))
      {
        ok := true;
        if !IsOwn(cfg, lan[i].0, lan[i].1) {
          var c := RouteAdd(V4(lan[i].0), lan[i].1, cfg.address.addr, true);
          ok := Do(c);
          Snoc(sys, old(Abs()), Swallow(cfg, lan, i), c);
        }
        i := i + 1;
        if !ok {
          SwallowGrows(cfg, lan, i, |lan|);
          Stops(sys, old(Abs()), Swallow(cfg, lan, i), Swallow(cfg, lan, |lan|));
          return;
        }
      }
      ok := true;
    }

    method BlockSix(cfg: ClientConfig) returns (ok: bool)
      requires !failed
      modifies this
      ensures Abs() == Exec(sys, old(Abs()), Halves(cfg, 2)) && ok == !failed
    {
      var i := 0;
      while i < 2
        invariant i <= 2 && !failed
        invariant Abs() == Exec(sys, old(Abs()), Halves(cfg, i))
      {
        ok := true;
        if HALVES[i] !in cfg.allowedIps {
          ok := Do(Route6Add(HALVES[i], true));
        }
        HalfStep(sys, old(Abs()), cfg, i);
        i := i + 1;
        if !ok {
          HalvesStop(sys, old(Abs()), cfg, i);
          return;
        }
      }
      ok := true;
    }

    method RouteHosts(cfg: ClientConfig) returns (ok: bool)
      requires !failed
      modifies this
      ensures Abs() == Exec(sys, old(Abs()), Hosts(cfg, |cfg.dns|)) && ok == !failed
    {
      var seen: set<Ip> := {};
      var i := 0;
      while i < |cfg.dns|
        invariant i <= |cfg.dns| && !failed
        invariant forall d :: d in seen <==> d in cfg.dns[..i]
        invariant Abs() == Exec(sys, old(Abs()), Hosts(cfg, i))
      {
        ok := true;
        var d := cfg.dns[i];
        HostStep(sys, old(Abs()), cfg, i);
        if d !in seen {
          ok := RouteOne(Host(d), cfg.address.addr);
        }
        seen := seen + {d};
        assert cfg.dns[..i + 1] == cfg.dns[..i] + [d];
        i := i + 1;
        if !ok {
          HostsStop(sys, old(Abs()), cfg, i);
          return;
        }
      }
      ok := true;
    }

    method RouteThrough(cfg: ClientConfig, lan: seq<(U32, U32)>) returns (ok: bool)
      requires !failed
      modifies this
      ensures Abs() == Exec(sys, old(Abs()), Through(cfg, lan)) && ok == !failed
    {
      ghost var s, all := Abs(), Through(cfg, lan);
      ghost var a := Allowed(cfg, |cfg.allowedIps|);
      ok := RouteAllowed(cfg);
      if !ok { Stops(sys, s, a, all); return; }
      ghost var b := a + LanPart(cfg, lan);
      ok := SwallowLan(cfg, lan);
      ExecAppend(sys, s, a, LanPart(cfg, lan));
      if !ok { Stops(sys, s, b, all); return; }
      ghost var c := b + Halves(cfg, 2);
      ok := BlockSix(cfg);
      ExecAppend(sys, s, b, Halves(cfg, 2));
      if !ok { Stops(sys, s, c, all); return; }
      ok := RouteHosts(cfg);
      ExecAppend(sys, s, c, Hosts(cfg, |cfg.dns|));
    }

    method AddRoutes(cfg: ClientConfig, server: Ip, gateway: U32, iface: U32, lan: seq<(U32, U32)>) returns (ok: bool)
      requires !failed
      modifies this
      ensures Abs() == Exec(sys, old(Abs()), Plan(cfg, server, gateway, iface, lan)) && ok == !failed
    {
      ghost var s, pins := Abs(), Pins(server, gateway, iface);
      ok := DoAll([RouteAdd(V4(gateway), ALL_ONES, V4(iface), false), RouteAdd(server, ALL_ONES, V4(gateway), false)]);
      if !ok { Stops(sys, s, pins, Plan(cfg, server, gateway, iface, lan)); return; }
      ok := RouteThrough(cfg, lan);
      ExecAppend(sys, s, pins, Through(cfg, lan));
    }

    /** `lines` is what `route print -4` would show. */
    method Open(reader: Reader, cfg: ClientConfig, server: Ip, lines: seq<string>) returns (ok: bool)
      requires Abs() == Start(machine)
      modifies this
      ensures var (default, lan) := Reading(reader, ActiveRows(reader, lines));
              Abs() == Opened(sys, cfg, server, default, lan, old(Abs())) && ok == !failed
    {
      ghost var s := Abs();
      var first := [SetAddress(cfg.address), SetMtu(cfg.mtu), FixMetric(true), FixMetric(false)];
      ok := DoAll(first);
      if ok { ok := SetUpDns(cfg.dns); } else { FailedStays(sys, Abs(), DnsCmds(cfg.dns)); }
      ExecAppend(sys, s, first, DnsCmds(cfg.dns));
      assert Abs() == Exec(sys, s, Setup(cfg));
      if !ok { return; }
      ok := Do(Print);
      if !ok { return; }
      var default, lan := ParseRoutes(reader, lines);
      if default.None? {
        failed := true;
        return false;
      }
      var (gateway, iface) := default.value;
      ok := AddRoutes(cfg, server, gateway, iface, lan);
    }

    method Drop()
      requires Inverses(undo)
      modifies `machine, `ran
      ensures machine == Replay(sys, old(machine), old(ran), undo)
      ensures ran == old(ran) + |undo| + if dns then 2 else 0
    {
      ghost var all := Replay(sys, machine, ran, undo);
      var i := |undo|;
      assert undo[..i] == undo;
      while i > 0
        modifies `machine, `ran
        invariant 0 <= i <= |undo| && ran == old(ran) + |undo| - i
        invariant Inverses(undo[..i])
        invariant all == Replay(sys, machine, ran, undo[..i])
      {
        i := i - 1;
        assert undo[..i + 1][..i] == undo[..i];
        if Succeeds(sys, ran, undo[i]) { machine := Effect(sys, machine, undo[i]); }
        ran := ran + 1;
      }
      if dns {
        if Succeeds(sys, ran, ResetDns) { machine := Effect(sys, machine, ResetDns); }
        if Succeeds(sys, ran + 1, Flush) { machine := Effect(sys, machine, Flush); }
        ran := ran + 2;
      }
    }
  }
}
