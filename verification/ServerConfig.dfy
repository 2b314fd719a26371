/** The server configuration and what `validate` makes certain about it, for any reader of keys and upstreams. */
module ServerConfig {
  import opened Basics
  import opened Prefixes
  import opened ServerNet
  import opened Upstream

  type Key = Bytes

  /** How keys are decoded and upstreams parsed. */
  datatype Reader = Reader(key: Bytes -> Option<Key>, upstream: Bytes -> Result<Upstream, UpstreamError>)

  /** The server's own reader, but for the library's key decoding. */
  function OwnReader(key: Bytes -> Option<Key>): Reader {
    Reader(key, ParseUpstream)
  }

  datatype WsListen = WsListen(path: Bytes, cert: bool, key: bool)

  datatype PeerConfig = PeerConfig(publicKey: Bytes, presharedKey: Option<Bytes>, allowedIps: seq<IpNet>, upstream: Option<Bytes>)

  datatype Config = Config(
    privateKey: Bytes, address: IpNet, listenUdp: Option<SockAddr>, listenWs: Option<WsListen>, upstream: Bytes,
    dns: Option<SockAddr>, allowPrivate: bool, peers: seq<PeerConfig>)

  datatype ConfigError =
    | NoListener | BadKey | BadUpstream(why: UpstreamError) | HalfTls | BadPath | DnsRefused | NoPeers | NoAllowedIps
    | OutsideAddress(net: IpNet) | Overlap(net: IpNet, other: IpNet)

  const SLASH: Byte := 0x2f

  // ----- what the configuration means

  /** The ownership table the server builds: every prefix of every peer, with the peer's position. */
  function TableOf(peers: seq<PeerConfig>): Table {
    if peers == [] then []
    else
      var last := |peers| - 1;
      TableOf(peers[..last]) + Entries(peers[last].allowedIps, last)
  }

  function Entries(nets: seq<IpNet>, idx: nat): (t: Table)
    ensures |t| == |nets| && forall k :: 0 <= k < |t| ==> t[k] == (nets[k], idx)
  {
    seq(|nets|, k requires 0 <= k < |nets| => (nets[k], idx))
  }

  ghost predicate Separate(table: Table) {
    forall i, j :: 0 <= i < j < |table| ==> !Share(table[i].0, table[j].0)
  }

  ghost predicate GoodGlobals(cfg: Config, read: Reader) {
    && (cfg.listenUdp.Some? || cfg.listenWs.Some?)
    && read.key(cfg.privateKey).Some?
    && read.upstream(cfg.upstream).Ok?
    && (cfg.listenWs.Some? ==>
          var ws := cfg.listenWs.value;
          ws.cert == ws.key && [SLASH] <= ws.path)
    && (cfg.dns.Some? ==> AllowedDst(cfg.address, cfg.dns.value.ip, cfg.allowPrivate))
    && cfg.peers != []
  }

  ghost predicate GoodSecrets(p: PeerConfig, read: Reader) {
    && read.key(p.publicKey).Some?
    && (p.presharedKey.Some? ==> read.key(p.presharedKey.value).Some?)
    && (p.upstream.Some? ==> read.upstream(p.upstream.value).Ok?)
    && p.allowedIps != []
  }

  ghost predicate GoodPeer(cfg: Config, p: PeerConfig, read: Reader) {
    GoodSecrets(p, read) && forall n :: n in p.allowedIps ==> Inside(n, cfg.address)
  }

  /** A configuration fit to run: every part parses, and the peers' prefixes are inside the tunnel subnet and
      pairwise disjoint as sets of addresses. */
  ghost predicate Accepted(cfg: Config, read: Reader) {
    && GoodGlobals(cfg, read)
    && (forall p :: p in cfg.peers ==> GoodPeer(cfg, p, read))
    && Separate(TableOf(cfg.peers))
  }

  lemma {:induction false} TableMembers(peers: seq<PeerConfig>, e: (IpNet, nat))
    ensures e in TableOf(peers) <==> e.1 < |peers| && e.0 in peers[e.1].allowedIps
  {
    if peers != [] {
      var last := |peers| - 1;
      var init, tail := TableOf(peers[..last]), Entries(peers[last].allowedIps, last);
      TableMembers(peers[..last], e);
      assert e in init + tail <==> e in init || e in tail;
      if e.0 in peers[last].allowedIps && e.1 == last {
        var k :| 0 <= k < |tail| && peers[last].allowedIps[k] == e.0;
        assert tail[k] == e;
      }
    }
  }

  /** Under an accepted configuration no address belongs to two peers. */
  lemma AcceptedUnambiguous(cfg: Config, read: Reader)
    requires Accepted(cfg, read)
    ensures Unambiguous(TableOf(cfg.peers))
  {
    var table := TableOf(cfg.peers);
    forall e, f, ip | e in table && f in table && Contains(e.0, ip) && Contains(f.0, ip)
      ensures e.1 == f.1
    {
      var i :| 0 <= i < |table| && table[i] == e;
      var j :| 0 <= j < |table| && table[j] == f;
      assert Share(e.0, f.0) && Share(f.0, e.0);
      assert i == j;
    }
  }

  /** ... and each owned address is inside the tunnel subnet. */
  lemma OwnedInsideAddress(cfg: Config, read: Reader, ip: Ip, i: nat)
    requires Accepted(cfg, read) && PeerFor(TableOf(cfg.peers), ip) == Some(i)
    ensures i < |cfg.peers| && Contains(cfg.address, ip)
  {
    var table := TableOf(cfg.peers);
    AcceptedUnambiguous(cfg, read);
    PeerForIsOwner(table, ip, i);
    var e :| e in table && Contains(e.0, ip) && e.1 == i;
    TableMembers(cfg.peers, e);
    assert GoodPeer(cfg, cfg.peers[i], read);
    assert Inside(e.0, cfg.address);
  }

  /** An accepted resolver is one the peers could reach themselves. */
  lemma ResolverReachable(cfg: Config, read: Reader)
    requires Accepted(cfg, read) && cfg.dns.Some?
    ensures var ip := cfg.dns.value.ip;
            && !Contains(cfg.address, ip) && !Contains(cfg.address, Canonical(ip))
            && !AlwaysRefused(Canonical(ip)) && (cfg.allowPrivate || !OptIn(Canonical(ip)))
  {
    AllowedExactly(cfg.address, cfg.dns.value.ip, cfg.allowPrivate);
  }

  // ----- validate

  /** The first prefix seen so far that the new one overlaps. */
  function FirstOverlap(seen: seq<IpNet>, net: IpNet): (r: Option<IpNet>)
    ensures r.Some? ==> r.value in seen && OverlapTest(r.value, net)
    ensures r.None? <==> forall o :: o in seen ==> !OverlapTest(o, net)
  {
    if seen == [] then None
    else if OverlapTest(seen[0], net) then Some(seen[0])
    else FirstOverlap(seen[1..], net)
  }

  method ValidateGlobals(cfg: Config, read: Reader) returns (r: Result<(), ConfigError>)
    ensures r.Ok? <==> GoodGlobals(cfg, read)
    ensures r.Err? ==> !r.error.OutsideAddress? && !r.error.Overlap?
  {
    if cfg.listenUdp.None? && cfg.listenWs.None? { return Err(NoListener); }
    if read.key(cfg.privateKey).None? { return Err(BadKey); }
    var global := read.upstream(cfg.upstream);
    if global.Err? { return Err(BadUpstream(global.error)); }
    if cfg.listenWs.Some? {
      var ws := cfg.listenWs.value;
      if ws.cert != ws.key { return Err(HalfTls); }
      if !([SLASH] <= ws.path) { return Err(BadPath); }
    }
    if cfg.dns.Some? {
      if !AllowedDst(cfg.address, cfg.dns.value.ip, cfg.allowPrivate) { return Err(DnsRefused); }
    }
    if cfg.peers == [] { return Err(NoPeers); }
    return Ok(());
  }

  method ValidateSecrets(p: PeerConfig, read: Reader) returns (r: Result<(), ConfigError>)
    ensures r.Ok? <==> GoodSecrets(p, read)
    ensures r.Err? ==> !r.error.OutsideAddress? && !r.error.Overlap?
  {
    if read.key(p.publicKey).None? { return Err(BadKey); }
    if p.presharedKey.Some? && read.key(p.presharedKey.value).None? { return Err(BadKey); }
    if p.upstream.Some? {
      var u := read.upstream(p.upstream.value);
      if u.Err? { return Err(BadUpstream(u.error)); }
    }
    if p.allowedIps == [] { return Err(NoAllowedIps); }
    return Ok(());
  }

  ghost predicate Tracks(seen: seq<IpNet>, table: Table) {
    |seen| == |table| && forall k :: 0 <= k < |seen| ==> seen[k] == table[k].0
  }

  /** One prefix more keeps the table separate exactly when it overlaps nothing seen. */
  lemma SeparateExtends(seen: seq<IpNet>, table: Table, e: (IpNet, nat))
    requires Tracks(seen, table) && Separate(table)
    ensures Separate(table + [e]) <==> FirstOverlap(seen, e.0).None?
    ensures Tracks(seen + [e.0], table + [e])
  {
    var more := table + [e];
    forall o ensures OverlapTest(o, e.0) <==> Share(o, e.0) {
      OverlapTestExact(o, e.0);
    }
    assert more[|table|] == e;
    if FirstOverlap(seen, e.0).Some? {
      var k :| 0 <= k < |seen| && OverlapTest(seen[k], e.0);
      assert more[k].0 == seen[k] && Share(more[k].0, more[|table|].0);
    } else {
      forall i, j | 0 <= i < j < |more| ensures !Share(more[i].0, more[j].0) {
        assert i < |table| && seen[i] in seen;
        if j < |table| {
          assert more[j] == table[j];
        }
      }
    }
  }

  /** The prefixes of one peer against everything seen before it. */
  method ValidateNets(cfg: Config, nets: seq<IpNet>, idx: nat, before: seq<IpNet>, ghost table: Table)
    returns (r: Result<(), ConfigError>, seen: seq<IpNet>)
    requires Tracks(before, table) && Separate(table)
    ensures r.Ok? <==> (forall n :: n in nets ==> Inside(n, cfg.address)) && Separate(table + Entries(nets, idx))
    ensures r.Ok? ==> Tracks(seen, table + Entries(nets, idx))
    ensures r.Err? && r.error.OutsideAddress? ==> r.error.net in nets && !Inside(r.error.net, cfg.address)
    ensures r.Err? && r.error.Overlap? ==> r.error.net in nets && Share(r.error.other, r.error.net)
  {
    seen := before;
    ghost var all := Entries(nets, idx);
    var j := 0;
    while j < |nets|
      invariant 0 <= j <= |nets|
      invariant forall k :: 0 <= k < j ==> Inside(nets[k], cfg.address)
      invariant Tracks(seen, table + all[..j]) && Separate(table + all[..j])
    {
      var net := nets[j];
      ContainsNetExact(cfg.address, net);
      assert table + all[..j + 1] == table + all[..j] + [all[j]];
      SeparateExtends(seen, table + all[..j], all[j]);
      if !ContainsNet(cfg.address, net) { return Err(OutsideAddress(net)), seen; }
      var other := FirstOverlap(seen, net);
      if other.Some? {
        OverlapTestExact(other.value, net);
        NotSeparate(table + all[..j + 1], table + all);
        return Err(Overlap(net, other.value)), seen;
      }
      seen := seen + [net];
      j := j + 1;
    }
    assert all[..j] == all;
    return Ok(()), seen;
  }

  lemma NotSeparate(part: Table, table: Table)
    requires part <= table && !Separate(part)
    ensures !Separate(table)
  {
    var i, j :| 0 <= i < j < |part| && Share(part[i].0, part[j].0);
    assert table[i] == part[i] && table[j] == part[j];
  }

  ghost predicate GoodUpTo(cfg: Config, read: Reader, i: nat)
    requires i <= |cfg.peers|
  {
    && (forall p :: p in cfg.peers[..i] ==> GoodPeer(cfg, p, read))
    && Separate(TableOf(cfg.peers[..i]))
  }

  lemma GoodStep(cfg: Config, read: Reader, i: nat)
    requires i < |cfg.peers|
    ensures TableOf(cfg.peers[..i + 1]) == TableOf(cfg.peers[..i]) + Entries(cfg.peers[i].allowedIps, i)
    ensures GoodUpTo(cfg, read, i + 1) ==> GoodUpTo(cfg, read, i)
    ensures GoodUpTo(cfg, read, i + 1) <==>
              && (forall p :: p in cfg.peers[..i] ==> GoodPeer(cfg, p, read))
              && GoodPeer(cfg, cfg.peers[i], read)
              && Separate(TableOf(cfg.peers[..i]) + Entries(cfg.peers[i].allowedIps, i))
  {
    var more := cfg.peers[..i + 1];
    assert more[..i] == cfg.peers[..i];
    assert more == cfg.peers[..i] + [cfg.peers[i]];
    if !Separate(TableOf(cfg.peers[..i])) {
      NotSeparate(TableOf(cfg.peers[..i]), TableOf(more));
    }
  }

  lemma {:induction false} GoodPrefix(cfg: Config, read: Reader, i: nat)
    requires i <= |cfg.peers| && GoodUpTo(cfg, read, |cfg.peers|)
    ensures GoodUpTo(cfg, read, i)
    decreases |cfg.peers| - i
  {
    if i < |cfg.peers| {
      GoodPrefix(cfg, read, i + 1);
      GoodStep(cfg, read, i);
    }
  }

  lemma AcceptedWhenGood(cfg: Config, read: Reader)
    ensures Accepted(cfg, read) <==> GoodGlobals(cfg, read) && GoodUpTo(cfg, read, |cfg.peers|)
  {
    assert cfg.peers[..|cfg.peers|] == cfg.peers;
  }

  method ValidatePeer(cfg: Config, read: Reader, i: nat, before: seq<IpNet>)
    returns (r: Result<(), ConfigError>, seen: seq<IpNet>)
    requires i < |cfg.peers| && GoodUpTo(cfg, read, i) && Tracks(before, TableOf(cfg.peers[..i]))
    ensures r.Ok? <==> GoodUpTo(cfg, read, i + 1)
    ensures r.Ok? ==> Tracks(seen, TableOf(cfg.peers[..i + 1]))
    ensures r.Err? && r.error.OutsideAddress? ==> !Inside(r.error.net, cfg.address)
    ensures r.Err? && r.error.Overlap? ==> Share(r.error.other, r.error.net)
  {
    GoodStep(cfg, read, i);
    r := ValidateSecrets(cfg.peers[i], read);
    if r.Err? { return r, before; }
    r, seen := ValidateNets(cfg, cfg.peers[i].allowedIps, i, before, TableOf(cfg.peers[..i]));
  }

  /** `validate` accepts exactly the configurations fit to run, and a complaint about prefixes is a true one. */
  method Validate(cfg: Config, read: Reader) returns (r: Result<(), ConfigError>)
    ensures r.Ok? <==> Accepted(cfg, read)
    ensures r.Err? && r.error.OutsideAddress? ==> !Inside(r.error.net, cfg.address)
    ensures r.Err? && r.error.Overlap? ==> Share(r.error.other, r.error.net)
  {
    AcceptedWhenGood(cfg, read);
    r := ValidateGlobals(cfg, read);
    if r.Err? { return; }
    var seen: seq<IpNet> := [];
    var i := 0;
    while i < |cfg.peers|
      invariant 0 <= i <= |cfg.peers|
      invariant GoodUpTo(cfg, read, i) && Tracks(seen, TableOf(cfg.peers[..i]))
    {
      if GoodUpTo(cfg, read, |cfg.peers|) {
        GoodPrefix(cfg, read, i + 1);
      }
      r, seen := ValidatePeer(cfg, read, i, seen);
      if r.Err? { return; }
      i := i + 1;
    }
    return Ok(());
  }
}
