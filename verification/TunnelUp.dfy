/** When a tunnel comes up, on a system that refuses nothing but host bits, and one that does. */
module TunnelUp {
  import opened Basics
  import opened Prefixes
  import opened RouteTable
  import opened RoutePlan
  import opened RouteUndo
  import opened TunnelTable
  import opened Killswitch
  import Six = SixBlock

  /** `route add` refuses destinations with host bits, and nothing else fails. */
  ghost predicate RefusesOnlyHostBits(sys: System) {
    forall ran, c :: sys.works(ran, c) <==> (c.RouteAdd? && c.dest.V4? ==> NoHostBits(c.dest.bits4, c.mask))
  }

  lemma {:induction false} AllSucceed(sys: System, s: State, cmds: seq<Cmd>)
    requires !s.failed && forall ran, c :: c in cmds ==> Succeeds(sys, ran, c)
    ensures !Exec(sys, s, cmds).failed
    decreases |cmds|
  {
    if cmds != [] {
      AllSucceed(sys, s, cmds[..|cmds| - 1]);
    }
  }

  lemma HostAligned(a: U32)
    ensures NoHostBits(a, ALL_ONES)
  {
    assert Mask4(32) == ALL_ONES && Floor(a, 32 - 32) == a;
  }

  lemma ThroughSucceeds(t: Tunnel, ran: nat, c: Cmd)
    requires RefusesOnlyHostBits(t.sys) && t.OnV4() && t.Aligned() && c in t.Cmds()
    ensures Succeeds(t.sys, ran, c)
  {
    ThroughOpens(t.cfg, t.lan);
    if c.RouteAdd? {
      ThroughBound(t.cfg, t.lan, c);
      ThroughMembers(t.cfg, t.lan, c);
    }
  }

  lemma SetupSucceeds(t: Tunnel, ran: nat, c: Cmd)
    requires RefusesOnlyHostBits(t.sys) && t.OnV4() && c in Setup(t.cfg)
    ensures Succeeds(t.sys, ran, c)
  {
    SetupOpens(t.cfg);
    SetupMembers(t.cfg, c);
    if c in DnsCmds(t.cfg.dns) {
      DnsMembers(t.cfg.dns, c);
      RuleMembers(V4Servers(t.cfg.dns), c);
    }
  }

  lemma PlanSucceeds(t: Tunnel, ran: nat, c: Cmd)
    requires RefusesOnlyHostBits(t.sys) && t.OnV4() && t.Aligned() && c in Plan(t.cfg, t.server, t.gateway, t.iface, t.lan)
    ensures Succeeds(t.sys, ran, c)
  {
    if c in t.Cmds() {
      ThroughSucceeds(t, ran, c);
    } else {
      HostAligned(t.gateway);
      HostAligned(t.server.bits4);
    }
  }

  /** It comes up exactly if its own address and the relay's are IPv4 and no planned route has host bits. */
  lemma ComesUpExactly(t: Tunnel)
    requires RefusesOnlyHostBits(t.sys)
    ensures !t.After().failed <==> t.OnV4() && t.Aligned()
  {
    if !t.After().failed {
      TableAfter(t);
    } else if t.OnV4() && t.Aligned() {
      forall ran, c | c in Setup(t.cfg) ensures Succeeds(t.sys, ran, c) {
        SetupSucceeds(t, ran, c);
      }
      AllSucceed(t.sys, Start(t.before), Setup(t.cfg));
      forall ran, c | c in Plan(t.cfg, t.server, t.gateway, t.iface, t.lan) ensures Succeeds(t.sys, ran, c) {
        PlanSucceeds(t, ran, c);
      }
      AllSucceed(t.sys, t.Listed(), Plan(t.cfg, t.server, t.gateway, t.iface, t.lan));
      assert false;
    }
  }

  // ----- one that does

  function Refuses(): System {
    System((n: nat, c: Cmd) => c.RouteAdd? && c.dest.V4? ==> NoHostBits(c.dest.bits4, c.mask),
           (routes: set<Route>, via: U32) => ETHERNET, (iface: U32) => 25, 256)
  }

  const LINK6: U128 := 0x2001_0db8_0000_0000_0000_0000_0000_0001

  /** The default full tunnel over the table of the repository's own test, with one on-link IPv6 prefix. */
  function TestTunnel(): Tunnel {
    Tunnel(Refuses(), ClientConfig(Prefix(V4(0x0a07_0002), 32), [], [Prefix(V4(0), 0)], 1420), V4(0x0506_0708),
           0xc0a8_4601, ETHERNET, [(0xc0a8_4600, 0xffff_ff00), (0x0af4_0000, 0xffff_ff00)],
           Machine(TestTable(), {Route6(Prefix(V6(LINK6), 64), false, 256)}, {}, 25, 25, true, true))
  }

  function Shifted(m: nat, k: nat): nat {
    if k == 0 then m else 2 * Shifted(m, k - 1)
  }

  lemma {:induction false} ShiftedAligned(m: nat, k: nat)
    ensures Floor(Shifted(m, k), k) == Shifted(m, k)
  {
    if k > 0 {
      var half := Shifted(m, k - 1);
      ShiftedAligned(m, k - 1);
      assert Shifted(m, k) == 2 * half && 2 * half / 2 == half;
      assert Floor(2 * half, k) == 2 * Floor(half, k - 1);
    }
  }

  lemma ShiftedBit(k: nat)
    ensures Shifted(0, k) == 0 && Shifted(1, k) == Pow2(k)
  {
  }

  lemma BlockAligned(dest: U32, len: nat, m: nat)
    requires len <= 32 && dest == Shifted(m, 32 - len)
    ensures NoHostBits(dest, Mask4(len))
  {
    ShiftedAligned(m, 32 - len);
  }

  lemma AllowedAligned(part: IpNet)
    requires part in Parts(Prefix(V4(0), 0))
    ensures part.addr.V4? && NoHostBits(part.addr.bits4, Mask4(part.len))
  {
    Width4();
    assert Pow2(32) == 2 * Pow2(31);
    ShiftedBit(31);
    ShiftedBit(32);
    BlockAligned(part.addr.bits4, part.len, if part.addr.bits4 == 0 then 0 else 1);
  }

  lemma SubnetsAligned()
    ensures NoHostBits(0xc0a8_4600, 0xffff_ff00) && NoHostBits(0x0af4_0000, 0xffff_ff00)
  {
    assert Pow2(8) == 256 && Mask4(24) + Pow2(32 - 24) == 0x1_0000_0000;
    assert Shifted(0xc0_a846, 8) == 0xc0a8_4600 && Shifted(0x0a_f400, 8) == 0x0af4_0000;
    BlockAligned(0xc0a8_4600, 24, 0xc0_a846);
    BlockAligned(0x0af4_0000, 24, 0x0a_f400);
  }

  lemma TestAligned()
    ensures TestTunnel().Aligned()
  {
    var t := TestTunnel();
    SubnetsAligned();
    forall c | c in t.Cmds() && c.RouteAdd? && c.dest.V4? ensures NoHostBits(c.dest.bits4, c.mask) {
      ThroughMembers(t.cfg, t.lan, c);
      if FromAllowed(t.cfg, c, 1) {
        var part :| part in Parts(t.cfg.allowedIps[0]) && c == AddNet(part, t.cfg.address.addr);
        AllowedAligned(part);
      }
    }
  }

  /** The hypotheses of the killswitch theorems hold together of it. The subnet of the second interface escapes, and so
      does the IPv6 prefix. */
  lemma TestTunnelLeaks()
    ensures var t := TestTunnel();
            && !t.After().failed && RefusesHostBits(t.sys) && FullTunnel(t.cfg) && Lists(t) && Unpinned(t, 0x0a0a_0009)
            && Escapes(t.After().machine.routes, 0x0a0a_0009, t.Adapter())
            && Six.Escapes(t.After().machine.routes6, LINK6)
  {
    var t := TestTunnel();
    TestAligned();
    ComesUpExactly(t);
    TestTableLists(t);
    assert IsDefault4(t.cfg.allowedIps[0]);
    OtherLinkEscapes(t);
    Six.LinkPrefixEscapes(t, Route6(Prefix(V6(LINK6), 64), false, 256), LINK6);
  }
}
