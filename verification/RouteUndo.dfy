/** What dropping the adapter leaves behind, whether `open` succeeded or failed at any of its commands. */
module RouteUndo {
  import opened Basics
  import opened Prefixes
  import opened RouteTable
  import opened RoutePlan

  // ----- while opening

  predicate IsInverse(c: Cmd) {
    c.RouteDelete? || c.Route6Delete? || c.ClearRules? || c.AutoMetric?
  }

  ghost predicate OnlyInverses(s: State) {
    forall c :: c in s.undo ==> IsInverse(c)
  }

  /** No initial route is gone, and every other route has its deletion logged. */
  ghost predicate LogsRoutes(m: Machine, s: State) {
    && m.routes <= s.machine.routes
    && forall r :: r in s.machine.routes && r !in m.routes ==> DeleteOf(r) in s.undo
  }

  ghost predicate LogsRoutes6(m: Machine, s: State) {
    && m.routes6 <= s.machine.routes6
    && forall r :: r in s.machine.routes6 && r !in m.routes6 ==> r.ours && Route6Delete(r.net) in s.undo
  }

  /** Rules of others are never touched, and one of ours is new only when clearing is logged. */
  ghost predicate LogsRules(m: Machine, s: State) {
    && (forall r :: !Ours(r) ==> (r in s.machine.rules <==> r in m.rules))
    && (ClearRules !in s.undo ==> s.machine.rules <= m.rules)
  }

  ghost predicate LogsMetrics(m: Machine, s: State) {
    && (s.machine.auto4 == m.auto4 || AutoMetric(true) in s.undo)
    && (s.machine.auto6 == m.auto6 || AutoMetric(false) in s.undo)
  }

  ghost predicate Logs(m: Machine, s: State) {
    OnlyInverses(s) && LogsRoutes(m, s) && LogsRoutes6(m, s) && LogsRules(m, s) && LogsMetrics(m, s)
  }

  /** `open` never takes anything away: deletions occur only in the log. */
  predicate Opening(c: Cmd) {
    !c.RouteDelete? && !c.Route6Delete? && !c.AutoMetric?
  }

  ghost predicate AllOpening(cmds: seq<Cmd>) {
    forall c :: c in cmds ==> Opening(c)
  }

  ghost predicate OnlyAdds(cmds: seq<Cmd>) {
    forall c :: c in cmds ==> c.RouteAdd? || c.Route6Add?
  }

  /** The log after a command that worked. */
  lemma LogGrows(s: State, t: State, c: Cmd)
    requires t.undo == s.undo + Inverse(c)
    ensures forall d :: d in t.undo <==> d in s.undo || d in Inverse(c)
  {
  }

  lemma WorkedLogsRoutes(sys: System, m: Machine, s: State, t: State, c: Cmd)
    requires LogsRoutes(m, s) && Opening(c) && (c.RouteAdd? ==> c.dest.V4? && c.via.V4?)
    requires t.machine == Effect(sys, s.machine, c) && t.undo == s.undo + Inverse(c)
    ensures LogsRoutes(m, t)
  {
    LogGrows(s, t, c);
    if c.RouteAdd? {
      assert Inverse(c)[0] == DeleteOf(Added(sys, s.machine, c));
    }
  }

  lemma WorkedLogsRoutes6(sys: System, m: Machine, s: State, t: State, c: Cmd)
    requires LogsRoutes6(m, s) && Opening(c) && (c.RouteAdd? ==> c.dest.V4? && c.via.V4?)
    requires t.machine == Effect(sys, s.machine, c) && t.undo == s.undo + Inverse(c)
    ensures LogsRoutes6(m, t)
  {
    LogGrows(s, t, c);
    if c.Route6Add? {
      assert Inverse(c)[0] == Route6Delete(c.net6);
    }
  }

  lemma WorkedLogsRules(sys: System, m: Machine, s: State, t: State, c: Cmd)
    requires LogsRules(m, s) && LogsMetrics(m, s) && Opening(c) && (c.RouteAdd? ==> c.dest.V4? && c.via.V4?)
    requires t.machine == Effect(sys, s.machine, c) && t.undo == s.undo + Inverse(c)
    ensures LogsRules(m, t) && LogsMetrics(m, t)
  {
    LogGrows(s, t, c);
    if c.AddRule? {
      assert Inverse(c)[0] == ClearRules;
    } else if c.FixMetric? {
      assert Inverse(c)[0] == AutoMetric(c.v4);
    }
  }

  lemma PerformLogs(sys: System, m: Machine, s: State, c: Cmd)
    requires Logs(m, s) && Opening(c)
    ensures Logs(m, Perform(sys, s, c))
  {
    var t := Perform(sys, s, c);
    if !s.failed && Succeeds(sys, s.ran, c) {
      LogGrows(s, t, c);
      WorkedLogsRoutes(sys, m, s, t, c);
      WorkedLogsRoutes6(sys, m, s, t, c);
      WorkedLogsRules(sys, m, s, t, c);
    }
  }

  lemma {:induction false} ExecLogs(sys: System, m: Machine, s: State, cmds: seq<Cmd>)
    requires Logs(m, s) && AllOpening(cmds)
    ensures Logs(m, Exec(sys, s, cmds))
    decreases |cmds|
  {
    if cmds != [] {
      var n := |cmds| - 1;
      assert cmds[n] in cmds;
      ExecLogs(sys, m, s, cmds[..n]);
      PerformLogs(sys, m, Exec(sys, s, cmds[..n]), cmds[n]);
    }
  }

  lemma {:induction false} MoreDnsOpens(dns: seq<Ip>, n: nat)
    requires n < |dns|
    ensures forall c :: c in MoreDns(dns, n) ==> c.AddDns?
  {
    if n > 0 {
      MoreDnsOpens(dns, n - 1);
    }
  }

  lemma {:induction false} NetsOpen(ns: seq<IpNet>, ip: Ip, k: nat)
    requires k <= |ns|
    ensures OnlyAdds(AddNets(ns, ip, k))
  {
    if k > 0 {
      NetsOpen(ns, ip, k - 1);
    }
  }

  lemma {:induction false} AllowedOpens(cfg: ClientConfig, n: nat)
    requires n <= |cfg.allowedIps|
    ensures OnlyAdds(Allowed(cfg, n))
  {
    if n > 0 {
      var parts := Parts(cfg.allowedIps[n - 1]);
      AllowedOpens(cfg, n - 1);
      NetsOpen(parts, cfg.address.addr, |parts|);
    }
  }

  lemma {:induction false} SwallowOpens(cfg: ClientConfig, lan: seq<(U32, U32)>, n: nat)
    requires n <= |lan|
    ensures OnlyAdds(Swallow(cfg, lan, n))
  {
    if n > 0 {
      SwallowOpens(cfg, lan, n - 1);
    }
  }

  lemma {:induction false} HostsOpen(cfg: ClientConfig, n: nat)
    requires n <= |cfg.dns|
    ensures OnlyAdds(Hosts(cfg, n))
  {
    if n > 0 {
      HostsOpen(cfg, n - 1);
    }
  }

  lemma ThroughOpens(cfg: ClientConfig, lan: seq<(U32, U32)>)
    ensures OnlyAdds(Through(cfg, lan))
  {
    AllowedOpens(cfg, |cfg.allowedIps|);
    SwallowOpens(cfg, lan, |lan|);
    assert OnlyAdds(Halves(cfg, 1));
    HostsOpen(cfg, |cfg.dns|);
  }

  lemma PlanOpens(cfg: ClientConfig, server: Ip, gateway: U32, iface: U32, lan: seq<(U32, U32)>)
    ensures OnlyAdds(Plan(cfg, server, gateway, iface, lan))
  {
    ThroughOpens(cfg, lan);
  }

  lemma DnsMembers(dns: seq<Ip>, c: Cmd)
    requires c in DnsCmds(dns)
    ensures c.SetDns? || c.AddDns? || c.Flush? || (c in RuleCmds(V4Servers(dns)))
  {
    MoreDnsOpens(dns, |dns| - 1);
  }

  lemma RuleMembers(servers: seq<Ip>, c: Cmd)
    ensures c in RuleCmds(servers) <==> servers != [] && (c == ClearRules || c == AddRule(servers))
  {
    if servers != [] {
      assert RuleCmds(servers)[0] == ClearRules && RuleCmds(servers)[1] == AddRule(servers);
    }
  }

  lemma DnsRules(dns: seq<Ip>)
    ensures V4Servers(dns) != [] ==> AddRule(V4Servers(dns)) in DnsCmds(dns)
  {
    RuleMembers(V4Servers(dns), AddRule(V4Servers(dns)));
    if dns == [] {
      assert V4Servers(dns) == [];
    }
  }

  lemma SetupMembers(cfg: ClientConfig, c: Cmd)
    ensures c in Setup(cfg) <==>
              || c == SetAddress(cfg.address) || c == SetMtu(cfg.mtu) || c == FixMetric(true) || c == FixMetric(false)
              || c in DnsCmds(cfg.dns)
  {
    var first := [SetAddress(cfg.address), SetMtu(cfg.mtu), FixMetric(true), FixMetric(false)];
    assert c in first <==> c == first[0] || c == first[1] || c == first[2] || c == first[3];
  }

  lemma SetupOpensOne(cfg: ClientConfig, c: Cmd)
    requires c in Setup(cfg)
    ensures Opening(c) && !c.RouteAdd? && !c.Route6Add? && (c.AddRule? || c.ClearRules? ==> V4Servers(cfg.dns) != [])
  {
    SetupMembers(cfg, c);
    if c in DnsCmds(cfg.dns) {
      DnsMembers(cfg.dns, c);
      RuleMembers(V4Servers(cfg.dns), c);
    }
  }

  /** Setting up adds no route, and touches rules exactly for an IPv4 name server. */
  lemma SetupOpens(cfg: ClientConfig)
    ensures AllOpening(Setup(cfg)) && (V4Servers(cfg.dns) == [] ==> ClearRules !in Setup(cfg))
    ensures forall c :: c in Setup(cfg) ==> !c.RouteAdd? && !c.Route6Add?
    ensures (exists c :: c in Setup(cfg) && c.AddRule?) <==> V4Servers(cfg.dns) != []
  {
    forall c | c in Setup(cfg)
      ensures Opening(c) && !c.RouteAdd? && !c.Route6Add? && (c.AddRule? || c.ClearRules? ==> V4Servers(cfg.dns) != [])
    {
      SetupOpensOne(cfg, c);
    }
    if V4Servers(cfg.dns) != [] {
      DnsRules(cfg.dns);
      SetupMembers(cfg, AddRule(V4Servers(cfg.dns)));
    }
  }

  lemma OpenLogs(sys: System, cfg: ClientConfig, server: Ip, default: Option<(U32, U32)>, lan: seq<(U32, U32)>, m: Machine)
    ensures Logs(m, Opened(sys, cfg, server, default, lan, Start(m)))
  {
    SetupOpens(cfg);
    ExecLogs(sys, m, Start(m), Setup(cfg));
    var listed := Perform(sys, Exec(sys, Start(m), Setup(cfg)), Print);
    PerformLogs(sys, m, Exec(sys, Start(m), Setup(cfg)), Print);
    if default.Some? {
      PlanOpens(cfg, server, default.value.0, default.value.1, lan);
      ExecLogs(sys, m, listed, Plan(cfg, server, default.value.0, default.value.1, lan));
    }
  }

  // ----- while dropping

  /** The logged commands that work when the log is replayed. */
  function Worked(sys: System, ran: nat, undo: seq<Cmd>): set<Cmd>
    decreases |undo|
  {
    if undo == [] then {}
    else
      Worked(sys, ran + 1, undo[..|undo| - 1])
      + if Succeeds(sys, ran, undo[|undo| - 1]) then {undo[|undo| - 1]} else {}
  }

  ghost predicate AllInverses(undo: seq<Cmd>) {
    forall c :: c in undo ==> IsInverse(c)
  }

  function RoutesLeft(m: Machine, done: set<Cmd>): set<Route> {
    set r | r in m.routes && DeleteOf(r) !in done
  }

  function Routes6Left(m: Machine, done: set<Cmd>): set<Route6> {
    set r | r in m.routes6 && !(r.ours && Route6Delete(r.net) in done)
  }

  function RulesLeft(m: Machine, done: set<Cmd>): set<Rule> {
    set r | r in m.rules && !(Ours(r) && ClearRules in done)
  }

  /** The order of the log does not matter: what is left is what no working entry removes. */
  lemma {:induction false} ReplayLeaves(sys: System, m: Machine, ran: nat, undo: seq<Cmd>)
    requires AllInverses(undo)
    ensures var f, done := Replay(sys, m, ran, undo), Worked(sys, ran, undo);
            && f.routes == RoutesLeft(m, done) && f.routes6 == Routes6Left(m, done) && f.rules == RulesLeft(m, done)
            && f.auto4 == (m.auto4 || AutoMetric(true) in done) && f.auto6 == (m.auto6 || AutoMetric(false) in done)
    decreases |undo|
  {
    if undo != [] {
      var c, rest := undo[|undo| - 1], undo[..|undo| - 1];
      assert c in undo;
      var m' := if Succeeds(sys, ran, c) then Effect(sys, m, c) else m;
      ReplayLeaves(sys, m', ran + 1, rest);
    }
  }

  lemma {:induction false} AllWork(sys: System, ran: nat, undo: seq<Cmd>)
    requires AllInverses(undo) && forall i: nat, c :: i >= ran ==> sys.works(i, c)
    ensures forall c :: c in Worked(sys, ran, undo) <==> c in undo
    decreases |undo|
  {
    if undo != [] {
      var n := |undo| - 1;
      AllWork(sys, ran + 1, undo[..n]);
      assert undo == undo[..n] + [undo[n]];
    }
  }

  /** Whatever fails while opening, dropping leaves exactly the initial routes that no logged deletion names; so the
      initial routes come back if and only if none of them has the key of an added one. */
  lemma RoutesRestored(sys: System, cfg: ClientConfig, server: Ip, default: Option<(U32, U32)>, lan: seq<(U32, U32)>,
                       m: Machine)
    requires forall i: nat, c :: i >= Opened(sys, cfg, server, default, lan, Start(m)).ran ==> sys.works(i, c)
    ensures var s := Opened(sys, cfg, server, default, lan, Start(m));
            Inverses(s.undo) &&
            var f := Replay(sys, s.machine, s.ran, s.undo);
            && f.routes == (set r | r in m.routes && DeleteOf(r) !in s.undo)
            && f.routes6 == (set r | r in m.routes6 && !(r.ours && Route6Delete(r.net) in s.undo))
            && (f.routes == m.routes <==> forall r :: r in m.routes ==> DeleteOf(r) !in s.undo)
            && (f.routes6 == m.routes6 <==> forall r :: r in m.routes6 && r.ours ==> Route6Delete(r.net) !in s.undo)
  {
    var s := Opened(sys, cfg, server, default, lan, Start(m));
    OpenLogs(sys, cfg, server, default, lan, m);
    ReplayLeaves(sys, s.machine, s.ran, s.undo);
    AllWork(sys, s.ran, s.undo);
  }

  /** Name rules of others always survive, and none of ours is left that was not there before opening. */
  lemma RulesRestored(sys: System, cfg: ClientConfig, server: Ip, default: Option<(U32, U32)>, lan: seq<(U32, U32)>,
                      m: Machine)
    requires forall i: nat, c :: i >= Opened(sys, cfg, server, default, lan, Start(m)).ran ==> sys.works(i, c)
    ensures var s := Opened(sys, cfg, server, default, lan, Start(m));
            Inverses(s.undo) &&
            var f := Replay(sys, s.machine, s.ran, s.undo);
            && f.rules <= m.rules && (forall r :: r in m.rules && !Ours(r) ==> r in f.rules)
            && (ClearRules in s.undo ==> forall r :: r in f.rules ==> !Ours(r))
            && f.auto4 == (m.auto4 || AutoMetric(true) in s.undo)
            && f.auto6 == (m.auto6 || AutoMetric(false) in s.undo)
  {
    var s := Opened(sys, cfg, server, default, lan, Start(m));
    OpenLogs(sys, cfg, server, default, lan, m);
    ReplayLeaves(sys, s.machine, s.ran, s.undo);
    AllWork(sys, s.ran, s.undo);
  }

  // ----- what is logged

  /** `c` is part of undoing one of these commands. */
  ghost predicate Plans(cmds: seq<Cmd>, c: Cmd) {
    exists d :: d in cmds && c in Inverse(d)
  }

  lemma PlansSnoc(cmds: seq<Cmd>, d: Cmd, c: Cmd)
    ensures Plans(cmds + [d], c) <==> Plans(cmds, c) || c in Inverse(d)
  {
    if c in Inverse(d) {
      assert d in cmds + [d];
    }
    if e :| e in cmds && c in Inverse(e) {
      assert e in cmds + [d];
    }
  }

  lemma {:induction false} ExecLogged(sys: System, s: State, cmds: seq<Cmd>, c: Cmd)
    ensures var t := Exec(sys, s, cmds);
            && (c in s.undo ==> c in t.undo) && (c in t.undo ==> c in s.undo || Plans(cmds, c))
            && (!t.failed && Plans(cmds, c) ==> c in t.undo)
    decreases |cmds|
  {
    if cmds != [] {
      var n := |cmds| - 1;
      ExecLogged(sys, s, cmds[..n], c);
      PlansSnoc(cmds[..n], cmds[n], c);
      assert cmds == cmds[..n] + [cmds[n]];
      PerformLogged(sys, Exec(sys, s, cmds[..n]), cmds[n], c);
    }
  }

  lemma PerformLogged(sys: System, s: State, d: Cmd, c: Cmd)
    ensures var t := Perform(sys, s, d);
            && (c in s.undo ==> c in t.undo) && (c in t.undo ==> c in s.undo || c in Inverse(d))
            && (!t.failed ==> !s.failed && (c in Inverse(d) ==> c in t.undo))
  {
  }

  /** A list of commands fails exactly if one of them does not work in its turn, and is not the clearing of old rules;
      the first such ends it. */
  lemma {:induction false} FailsExactly(sys: System, s: State, cmds: seq<Cmd>)
    requires !s.failed
    ensures var t := Exec(sys, s, cmds);
            && (t.failed <==> exists k :: 0 <= k < |cmds| && Breaks(sys, s.ran + k, cmds[k]))
            && s.ran <= t.ran <= s.ran + |cmds| && (!t.failed ==> t.ran == s.ran + |cmds|)
            && (t.failed ==> t.ran > s.ran && Breaks(sys, t.ran - 1, cmds[t.ran - 1 - s.ran])
                             && forall k :: 0 <= k < t.ran - 1 - s.ran ==> !Breaks(sys, s.ran + k, cmds[k]))
    decreases |cmds|
  {
    if cmds != [] {
      var n := |cmds| - 1;
      FailsExactly(sys, s, cmds[..n]);
      assert forall k :: 0 <= k < n ==> cmds[..n][k] == cmds[k];
    }
  }

  predicate Breaks(sys: System, ran: nat, c: Cmd) {
    !Succeeds(sys, ran, c) && !c.ClearRules?
  }

  /** What is logged is exactly the inverses of the commands that were run and worked. */
  lemma {:induction false} LoggedExactly(sys: System, s: State, cmds: seq<Cmd>, c: Cmd)
    requires !s.failed
    ensures var t := Exec(sys, s, cmds);
            && s.ran <= t.ran <= s.ran + |cmds|
            && (c in t.undo <==> c in s.undo || WorkedFor(sys, s.ran, cmds, t.ran - s.ran, c))
    decreases |cmds|
  {
    if cmds != [] {
      var n := |cmds| - 1;
      var before := Exec(sys, s, cmds[..n]);
      RanCounts(sys, s, cmds[..n]);
      LoggedExactly(sys, s, cmds[..n], c);
      WorkedPrefix(sys, s.ran, cmds, n, before.ran - s.ran, c);
      if !before.failed {
        LogsNext(sys, s, cmds, n, before, c);
      }
    }
  }

  lemma {:induction false} RanCounts(sys: System, s: State, cmds: seq<Cmd>)
    ensures !Exec(sys, s, cmds).failed ==> Exec(sys, s, cmds).ran == s.ran + |cmds|
    decreases |cmds|
  {
    if cmds != [] {
      RanCounts(sys, s, cmds[..|cmds| - 1]);
    }
  }

  lemma LogsNext(sys: System, s: State, cmds: seq<Cmd>, n: nat, before: State, c: Cmd)
    requires n < |cmds| && !before.failed && before.ran == s.ran + n
    requires c in before.undo <==> c in s.undo || WorkedFor(sys, s.ran, cmds, n, c)
    ensures var after := Perform(sys, before, cmds[n]);
            after.ran == s.ran + n + 1 && (c in after.undo <==> c in s.undo || WorkedFor(sys, s.ran, cmds, n + 1, c))
  {
    WorkedNext(sys, s.ran, cmds, n, c);
  }

  lemma WorkedPrefix(sys: System, ran: nat, cmds: seq<Cmd>, m: nat, n: nat, c: Cmd)
    requires n <= m <= |cmds|
    ensures WorkedFor(sys, ran, cmds[..m], n, c) <==> WorkedFor(sys, ran, cmds, n, c)
  {
    assert forall k :: 0 <= k < n ==> cmds[..m][k] == cmds[k];
  }

  lemma WorkedNext(sys: System, ran: nat, cmds: seq<Cmd>, n: nat, c: Cmd)
    requires n < |cmds|
    ensures WorkedFor(sys, ran, cmds, n + 1, c) <==>
              WorkedFor(sys, ran, cmds, n, c) || (Succeeds(sys, ran + n, cmds[n]) && c in Inverse(cmds[n]))
  {
  }

  /** `c` undoes one of the first `n` commands that worked. */
  ghost predicate WorkedFor(sys: System, ran: nat, cmds: seq<Cmd>, n: nat, c: Cmd)
    requires n <= |cmds|
  {
    exists k :: 0 <= k < n && Succeeds(sys, ran + k, cmds[k]) && c in Inverse(cmds[k])
  }

  /** The two halves of `open`. */
  lemma OpenedInTwo(sys: System, cfg: ClientConfig, server: Ip, default: Option<(U32, U32)>, lan: seq<(U32, U32)>, s: State)
    returns (listed: State)
    ensures listed == Perform(sys, Exec(sys, s, Setup(cfg)), Print)
    ensures var t := Opened(sys, cfg, server, default, lan, s);
            && (default.None? ==> t == listed.(failed := true))
            && (default.Some? ==> t == Exec(sys, listed, Plan(cfg, server, default.value.0, default.value.1, lan)))
  {
    listed := Perform(sys, Exec(sys, s, Setup(cfg)), Print);
    if listed.failed && default.Some? {
      FailedStays(sys, listed, Plan(cfg, server, default.value.0, default.value.1, lan));
    }
  }

  /** The log holds only inverses of planned commands, and after a success those of all of them. */
  lemma OpenLogged(sys: System, cfg: ClientConfig, server: Ip, default: Option<(U32, U32)>, lan: seq<(U32, U32)>,
                   m: Machine, c: Cmd)
    ensures var s := Opened(sys, cfg, server, default, lan, Start(m));
            && (default.None? ==> s.failed)
            && (c in s.undo ==> Plans(Setup(cfg), c) ||
                                (default.Some? && Plans(Plan(cfg, server, default.value.0, default.value.1, lan), c)))
            && (!s.failed && Plans(Setup(cfg), c) ==> c in s.undo)
            && (!s.failed && Plans(Plan(cfg, server, default.value.0, default.value.1, lan), c) ==> c in s.undo)
  {
    ExecLogged(sys, Start(m), Setup(cfg), c);
    var done := Exec(sys, Start(m), Setup(cfg));
    PerformLogged(sys, done, Print, c);
    var listed := OpenedInTwo(sys, cfg, server, default, lan, Start(m));
    if default.Some? {
      var plan := Plan(cfg, server, default.value.0, default.value.1, lan);
      ExecLogged(sys, listed, plan, c);
      FailedBefore(sys, listed, plan);
    }
  }

  lemma FailedBefore(sys: System, s: State, cmds: seq<Cmd>)
    ensures s.failed ==> Exec(sys, s, cmds).failed
  {
    if s.failed { FailedStays(sys, s, cmds); }
  }

  /** Setting up logs a deletion of rules when there is an IPv4 name server, and never one of routes. */
  lemma SetupLogged(cfg: ClientConfig, c: Cmd)
    requires !c.AutoMetric?
    ensures Plans(Setup(cfg), c) <==> c == ClearRules && V4Servers(cfg.dns) != []
  {
    SetupOpens(cfg);
    if d :| d in Setup(cfg) && d.AddRule? {
      assert Inverse(d) == [ClearRules];
    }
  }

  /** The plan adds a route with the destination, mask and next hop of this one. */
  ghost predicate Adds(plan: seq<Cmd>, r: Route) {
    exists c :: c in plan && c.RouteAdd? && c.dest == V4(r.dest) && c.mask == r.mask && c.via == V4(r.via)
  }

  ghost predicate Adds6(plan: seq<Cmd>, net: IpNet) {
    exists c :: c in plan && c.Route6Add? && c.net6 == net
  }

  /** The plan adds no route with the key of one of these. */
  ghost predicate Spares(m: Machine, plan: seq<Cmd>) {
    && (forall r :: r in m.routes ==> !Adds(plan, r))
    && (forall r :: r in m.routes6 && r.ours ==> !Adds6(plan, r.net))
  }

  /** Undoing the addition of a route is deleting that route, and nothing else deletes it. */
  lemma PlansWhatAdds(plan: seq<Cmd>, r: Route, net: IpNet)
    ensures Plans(plan, DeleteOf(r)) <==> Adds(plan, r)
    ensures Plans(plan, Route6Delete(net)) <==> Adds6(plan, net)
  {
    if c :| c in plan && c.RouteAdd? && c.dest == V4(r.dest) && c.mask == r.mask && c.via == V4(r.via) {
      assert Inverse(c) == [DeleteOf(r)];
    }
    if c :| c in plan && c.Route6Add? && c.net6 == net {
      assert Inverse(c) == [Route6Delete(net)];
    }
  }

  lemma LoggedIffPlanned(sys: System, cfg: ClientConfig, server: Ip, default: (U32, U32), lan: seq<(U32, U32)>,
                         m: Machine, c: Cmd)
    requires c.RouteDelete? || c.Route6Delete?
    ensures var s, plan := Opened(sys, cfg, server, Some(default), lan, Start(m)),
                           Plan(cfg, server, default.0, default.1, lan);
            (c in s.undo ==> Plans(plan, c)) && (!s.failed && Plans(plan, c) ==> c in s.undo)
  {
    OpenLogged(sys, cfg, server, Some(default), lan, m, c);
    SetupLogged(cfg, c);
  }

  /** After a successful `open` and a drop whose commands work, the initial routes of both families are back if and
      only if the plan adds no route with the key of one of them. */
  lemma SuccessRestores(sys: System, cfg: ClientConfig, server: Ip, default: (U32, U32), lan: seq<(U32, U32)>, m: Machine)
    requires !Opened(sys, cfg, server, Some(default), lan, Start(m)).failed
    requires forall i: nat, c :: i >= Opened(sys, cfg, server, Some(default), lan, Start(m)).ran ==> sys.works(i, c)
    ensures var s, plan := Opened(sys, cfg, server, Some(default), lan, Start(m)),
                           Plan(cfg, server, default.0, default.1, lan);
            Inverses(s.undo) &&
            var f := Replay(sys, s.machine, s.ran, s.undo);
            && (f.routes == m.routes <==> forall r :: r in m.routes ==> !Adds(plan, r))
            && (f.routes6 == m.routes6 <==> forall r :: r in m.routes6 && r.ours ==> !Adds6(plan, r.net))
  {
    RoutesRestored(sys, cfg, server, Some(default), lan, m);
    forall r | r in m.routes
      ensures DeleteOf(r) in Opened(sys, cfg, server, Some(default), lan, Start(m)).undo
              <==> Adds(Plan(cfg, server, default.0, default.1, lan), r)
    {
      PlansWhatAdds(Plan(cfg, server, default.0, default.1, lan), r, HALVES[0]);
      LoggedIffPlanned(sys, cfg, server, default, lan, m, DeleteOf(r));
    }
    forall r | r in m.routes6 && r.ours
      ensures Route6Delete(r.net) in Opened(sys, cfg, server, Some(default), lan, Start(m)).undo
              <==> Adds6(Plan(cfg, server, default.0, default.1, lan), r.net)
    {
      PlansWhatAdds(Plan(cfg, server, default.0, default.1, lan), Route(0, 0, 0, 0, 0), r.net);
      LoggedIffPlanned(sys, cfg, server, default, lan, m, Route6Delete(r.net));
    }
  }

  /** A failed `open` needs no more than that to leave the initial routes of both families; one that finds no default
      route adds none. */
  lemma FailureRestores(sys: System, cfg: ClientConfig, server: Ip, default: Option<(U32, U32)>, lan: seq<(U32, U32)>,
                        m: Machine)
    requires forall i: nat, c :: i >= Opened(sys, cfg, server, default, lan, Start(m)).ran ==> sys.works(i, c)
    requires default.Some? ==> Spares(m, Plan(cfg, server, default.value.0, default.value.1, lan))
    ensures var s := Opened(sys, cfg, server, default, lan, Start(m));
            Inverses(s.undo) &&
            var f := Replay(sys, s.machine, s.ran, s.undo);
            f.routes == m.routes && f.routes6 == m.routes6
  {
    RoutesRestored(sys, cfg, server, default, lan, m);
    forall r | r in m.routes ensures DeleteOf(r) !in Opened(sys, cfg, server, default, lan, Start(m)).undo {
      if default.Some? {
        PlansWhatAdds(Plan(cfg, server, default.value.0, default.value.1, lan), r, HALVES[0]);
      }
      OpenLogged(sys, cfg, server, default, lan, m, DeleteOf(r));
      SetupLogged(cfg, DeleteOf(r));
    }
    forall r | r in m.routes6 && r.ours
      ensures Route6Delete(r.net) !in Opened(sys, cfg, server, default, lan, Start(m)).undo
    {
      if default.Some? {
        PlansWhatAdds(Plan(cfg, server, default.value.0, default.value.1, lan), Route(0, 0, 0, 0, 0), r.net);
      }
      OpenLogged(sys, cfg, server, default, lan, m, Route6Delete(r.net));
      SetupLogged(cfg, Route6Delete(r.net));
    }
  }

  // ----- stale rules

  lemma PerformKeepsRules(sys: System, s: State, c: Cmd)
    requires c != ClearRules && Opening(c)
    ensures s.machine.rules <= Perform(sys, s, c).machine.rules
  {
  }

  lemma {:induction false} NoClearKeeps(sys: System, s: State, cmds: seq<Cmd>)
    requires ClearRules !in cmds && AllOpening(cmds)
    ensures s.machine.rules <= Exec(sys, s, cmds).machine.rules
    decreases |cmds|
  {
    if cmds != [] {
      var n := |cmds| - 1;
      assert cmds[n] in cmds;
      assert forall c :: c in cmds[..n] ==> c in cmds;
      NoClearKeeps(sys, s, cmds[..n]);
      PerformKeepsRules(sys, Exec(sys, s, cmds[..n]), cmds[n]);
    }
  }

  lemma {:induction false} V4ServersOf(dns: seq<Ip>)
    ensures V4Servers(dns) == [] <==> forall d :: d in dns ==> !d.V4?
    decreases |dns|
  {
    if dns != [] {
      var n := |dns| - 1;
      V4ServersOf(dns[..n]);
      assert dns == dns[..n] + [dns[n]];
    }
  }

  /** The servers of the rule are the IPv4 servers of the configuration, in its order. */
  lemma {:induction false} V4ServersInOrder(dns: seq<Ip>) returns (ks: seq<nat>)
    ensures SelectsV4(dns, V4Servers(dns), ks)
    decreases |dns|
  {
    ks := [];
    if dns != [] {
      var n := |dns| - 1;
      ks := V4ServersInOrder(dns[..n]);
      SelectsMore(dns[..n], V4Servers(dns[..n]), ks, dns[n]);
      assert dns == dns[..n] + [dns[n]];
      ks := if dns[n].V4? then ks + [n] else ks;
    }
  }

  /** The places `ks` are those of the IPv4 addresses, which are `chosen`. */
  predicate SelectsV4(dns: seq<Ip>, chosen: seq<Ip>, ks: seq<nat>) {
    && |ks| == |chosen| && Increasing(ks)
    && (forall j :: 0 <= j < |ks| ==> ks[j] < |dns| && chosen[j] == dns[ks[j]] && dns[ks[j]].V4?)
    && (forall k :: 0 <= k < |dns| && dns[k].V4? ==> k in ks)
  }

  lemma SelectsMore(dns: seq<Ip>, chosen: seq<Ip>, ks: seq<nat>, d: Ip)
    requires SelectsV4(dns, chosen, ks)
    ensures if d.V4? then SelectsV4(dns + [d], chosen + [d], ks + [|dns|]) else SelectsV4(dns + [d], chosen, ks)
  {
    IncreasingMore(ks, |dns|);
  }

  /** The name servers are set first to last, the first as the only one and each further at its own place, and the
      resolver cache is flushed last; in between, for IPv4 servers, old rules are cleared and one rule added. */
  lemma DnsInOrder(dns: seq<Ip>, i: nat)
    requires i < |dns|
    ensures var cmds, rule := DnsCmds(dns), V4Servers(dns);
            && |cmds| == |dns| + (if rule == [] then 1 else 3) && cmds[|cmds| - 1] == Flush
            && cmds[i] == (if i == 0 then SetDns(dns[0]) else AddDns(dns[i], i + 1))
            && (rule != [] ==> cmds[|dns| + 0] == ClearRules && cmds[|dns| + 1] == AddRule(rule))
  {
    MoreDnsAt(dns, |dns| - 1, i);
    var servers := [SetDns(dns[0])] + MoreDns(dns, |dns| - 1);
    assert servers[i] == if i == 0 then SetDns(dns[0]) else AddDns(dns[i], i + 1);
    Joined(servers, RuleCmds(V4Servers(dns)), Flush, i);
  }

  lemma Joined(a: seq<Cmd>, b: seq<Cmd>, last: Cmd, i: nat)
    requires i < |a|
    ensures var all := a + b + [last];
            && |all| == |a| + |b| + 1 && all[|all| - 1] == last && all[i] == a[i]
            && forall j :: 0 <= j < |b| ==> all[|a| + j] == b[j]
  {
  }

  lemma {:induction false} MoreDnsAt(dns: seq<Ip>, n: nat, i: nat)
    requires i <= n < |dns|
    ensures |MoreDns(dns, n)| == n && (i > 0 ==> MoreDns(dns, n)[i - 1] == AddDns(dns[i], i + 1))
  {
    if n > 0 {
      MoreDnsAt(dns, n - 1, if i < n then i else 0);
    }
  }

  lemma {:induction false} ExecFlushes(sys: System, s: State, cmds: seq<Cmd>)
    ensures !Exec(sys, s, cmds).failed ==> (Exec(sys, s, cmds).dns <==> s.dns || Flush in cmds)
    decreases |cmds|
  {
    if cmds != [] {
      var n := |cmds| - 1;
      ExecFlushes(sys, s, cmds[..n]);
      assert cmds == cmds[..n] + [cmds[n]];
    }
  }

  /** A drop after a successful `open` resets the name servers exactly if the configuration names some. */
  lemma ResetsDns(sys: System, cfg: ClientConfig, server: Ip, default: (U32, U32), lan: seq<(U32, U32)>, m: Machine)
    requires !Opened(sys, cfg, server, Some(default), lan, Start(m)).failed
    ensures Opened(sys, cfg, server, Some(default), lan, Start(m)).dns <==> cfg.dns != []
  {
    var plan := Plan(cfg, server, default.0, default.1, lan);
    var listed := OpenedInTwo(sys, cfg, server, Some(default), lan, Start(m));
    FailedBefore(sys, listed, plan);
    PlanOpens(cfg, server, default.0, default.1, lan);
    ExecFlushes(sys, listed, plan);
    ExecFlushes(sys, Start(m), Setup(cfg));
    SetupMembers(cfg, Flush);
    if cfg.dns != [] { DnsInOrder(cfg.dns, 0); }
  }

  /** While a tunnel with IPv4 name servers is up, its rule is in force. */
  lemma RuleInForce(sys: System, cfg: ClientConfig, server: Ip, default: (U32, U32), lan: seq<(U32, U32)>, m: Machine)
    requires V4Servers(cfg.dns) != [] && !Opened(sys, cfg, server, Some(default), lan, Start(m)).failed
    ensures Rule("wg-wrapper", V4Servers(cfg.dns)) in Opened(sys, cfg, server, Some(default), lan, Start(m)).machine.rules
  {
    var servers, plan := V4Servers(cfg.dns), Plan(cfg, server, default.0, default.1, lan);
    var listed := OpenedInTwo(sys, cfg, server, Some(default), lan, Start(m));
    FailedBefore(sys, listed, plan);
    RuleAdded(sys, Start(m), cfg);
    PlanKeepsRules(sys, listed, cfg, server, default, lan);
  }

  lemma PlanKeepsRules(sys: System, s: State, cfg: ClientConfig, server: Ip, default: (U32, U32), lan: seq<(U32, U32)>)
    ensures s.machine.rules <= Exec(sys, s, Plan(cfg, server, default.0, default.1, lan)).machine.rules
  {
    PlanOpens(cfg, server, default.0, default.1, lan);
    NoClearKeeps(sys, s, Plan(cfg, server, default.0, default.1, lan));
  }

  lemma RuleAdded(sys: System, s: State, cfg: ClientConfig)
    requires V4Servers(cfg.dns) != [] && !Exec(sys, s, Setup(cfg)).failed
    ensures Rule("wg-wrapper", V4Servers(cfg.dns)) in Exec(sys, s, Setup(cfg)).machine.rules
  {
    var servers, setup := V4Servers(cfg.dns), Setup(cfg);
    var n := |setup|;
    DnsInOrder(cfg.dns, 0);
    assert setup[n - 2] == AddRule(servers) && setup[n - 1] == Flush;
    var before, added := Exec(sys, s, setup[..n - 2]), Exec(sys, s, setup[..n - 1]);
    assert setup[..n - 1][..n - 2] == setup[..n - 2];
    assert added == Perform(sys, before, AddRule(servers));
    assert Exec(sys, s, setup) == Perform(sys, added, Flush);
  }

  /** After a successful `open` and a drop whose commands work, no rule of ours is left if and only if the
      configuration names an IPv4 server or there was none to begin with: without one, rules a crashed run left
      behind stay. */
  lemma StaleRules(sys: System, cfg: ClientConfig, server: Ip, default: Option<(U32, U32)>, lan: seq<(U32, U32)>,
                   m: Machine)
    requires default.Some? && !Opened(sys, cfg, server, default, lan, Start(m)).failed
    requires forall i: nat, c :: i >= Opened(sys, cfg, server, default, lan, Start(m)).ran ==> sys.works(i, c)
    ensures var s := Opened(sys, cfg, server, default, lan, Start(m));
            Inverses(s.undo) &&
            ((forall r :: r in Replay(sys, s.machine, s.ran, s.undo).rules ==> !Ours(r))
             <==> (exists d :: d in cfg.dns && d.V4?) || (forall r :: r in m.rules ==> !Ours(r)))
  {
    RulesRestored(sys, cfg, server, default, lan, m);
    OpenLogged(sys, cfg, server, default, lan, m, ClearRules);
    SetupLogged(cfg, ClearRules);
    V4ServersOf(cfg.dns);
    if V4Servers(cfg.dns) == [] {
      StaleStay(sys, cfg, server, default.value, lan, m);
    }
  }

  lemma RulesKept(sys: System, cfg: ClientConfig, server: Ip, default: (U32, U32), lan: seq<(U32, U32)>, m: Machine)
    requires V4Servers(cfg.dns) == []
    ensures m.rules <= Opened(sys, cfg, server, Some(default), lan, Start(m)).machine.rules
  {
    var plan := Plan(cfg, server, default.0, default.1, lan);
    SetupOpens(cfg);
    PlanOpens(cfg, server, default.0, default.1, lan);
    NoClearKeeps(sys, Start(m), Setup(cfg));
    var listed := OpenedInTwo(sys, cfg, server, Some(default), lan, Start(m));
    assert listed.machine == Exec(sys, Start(m), Setup(cfg)).machine;
    NoClearKeeps(sys, listed, plan);
  }

  lemma StaleStay(sys: System, cfg: ClientConfig, server: Ip, default: (U32, U32), lan: seq<(U32, U32)>, m: Machine)
    requires V4Servers(cfg.dns) == []
    requires forall i: nat, c :: i >= Opened(sys, cfg, server, Some(default), lan, Start(m)).ran ==> sys.works(i, c)
    ensures var s := Opened(sys, cfg, server, Some(default), lan, Start(m));
            Inverses(s.undo) && Replay(sys, s.machine, s.ran, s.undo).rules == m.rules
  {
    var s, plan := Opened(sys, cfg, server, Some(default), lan, Start(m)), Plan(cfg, server, default.0, default.1, lan);
    PlanOpens(cfg, server, default.0, default.1, lan);
    RulesKept(sys, cfg, server, default, lan, m);
    OpenLogs(sys, cfg, server, Some(default), lan, m);
    OpenLogged(sys, cfg, server, Some(default), lan, m, ClearRules);
    SetupLogged(cfg, ClearRules);
    AddsClearNothing(plan);
    ReplayLeaves(sys, s.machine, s.ran, s.undo);
    AllWork(sys, s.ran, s.undo);
  }

  lemma AddsClearNothing(cmds: seq<Cmd>)
    requires OnlyAdds(cmds)
    ensures !Plans(cmds, ClearRules)
  {
  }
}
