/** Bringing the server up: the WireGuard table, the ownership table and the upstream of each peer. */
module ServerStart {
  import opened Basics
  import opened Prefixes
  import opened Packets
  import opened ServerNet
  import opened Upstream
  import opened ServerConfig
  import opened WgCore

  datatype StartError = UnusableKey | UnusableUpstream | DuplicatePeer

  datatype Setup = Setup(wg: Wg, allowed: Table, upstreams: seq<Upstream>)

  /** A peer without an upstream of its own uses the global one. */
  function UpstreamOf(cfg: Config, read: Reader, p: PeerConfig): Result<Upstream, UpstreamError> {
    read.upstream(if p.upstream.Some? then p.upstream.value else cfg.upstream)
  }

  /** The peer's own upstream if its entry names one, and otherwise the global one. */
  predicate UsesUpstream(cfg: Config, read: Reader, p: PeerConfig, up: Upstream) {
    && (p.upstream.Some? ==> read.upstream(p.upstream.value) == Ok(up))
    && (p.upstream.None? ==> read.upstream(cfg.upstream) == Ok(up))
  }

  ghost predicate Parses(cfg: Config, read: Reader, p: PeerConfig) {
    && read.key(p.publicKey).Some? && UpstreamOf(cfg, read, p).Ok?
    && (p.presharedKey.Some? ==> read.key(p.presharedKey.value).Some?)
  }

  ghost predicate DistinctKeys(cfg: Config, read: Reader, n: nat)
    requires n <= |cfg.peers|
  {
    forall i, j :: 0 <= i < j < n ==> read.key(cfg.peers[i].publicKey) != read.key(cfg.peers[j].publicKey)
  }

  /** The first `n` peers can be registered. */
  ghost predicate PeersStart(cfg: Config, read: Reader, n: nat)
    requires n <= |cfg.peers|
  {
    (forall i :: 0 <= i < n ==> Parses(cfg, read, cfg.peers[i])) && DistinctKeys(cfg, read, n)
  }

  ghost predicate Startable(cfg: Config, read: Reader) {
    && read.upstream(cfg.upstream).Ok? && read.key(cfg.privateKey).Some?
    && PeersStart(cfg, read, |cfg.peers|)
  }

  /** A validated configuration can only fail to start on two peers with the same public key. */
  lemma AcceptedStarts(cfg: Config, read: Reader)
    requires Accepted(cfg, read)
    ensures Startable(cfg, read) <==> DistinctKeys(cfg, read, |cfg.peers|)
  {
    forall i | 0 <= i < |cfg.peers| ensures Parses(cfg, read, cfg.peers[i]) {
      assert GoodPeer(cfg, cfg.peers[i], read);
    }
  }

  /** A table fresh from registering the first `n` peers in order. */
  ghost predicate Registered(s: State, cfg: Config, read: Reader, n: nat)
    requires n <= |cfg.peers|
  {
    && Fresh(s) && |s.peers| == n
    && forall i :: 0 <= i < n ==> read.key(cfg.peers[i].publicKey) == Some(s.peers[i].publicKey)
  }

  lemma RegisterOne(s: State, cfg: Config, read: Reader, n: nat, key: Key, inner: int)
    requires n < |cfg.peers| && Registered(s, cfg, read, n) && read.key(cfg.peers[n].publicKey) == Some(key)
    ensures key in s.byKey <==> exists j :: 0 <= j < n && read.key(cfg.peers[j].publicKey) == Some(key)
    ensures key !in s.byKey ==> Registered(AddPeerSpec(s, key, inner).0, cfg, read, n + 1)
  {
    if key in s.byKey {
      assert s.peers[s.byKey[key]].publicKey == key;
    }
  }

  /** Registers one peer, pushes its prefixes under the index it got, and reads its upstream; `inner` is the new
      session's own state. */
  method StartPeer(cfg: Config, read: Reader, wg: Wg, i: nat, inner: int, before: Table)
    returns (r: Result<Upstream, StartError>, allowed: Table)
    requires i < |cfg.peers| && Registered(wg.Abs(), cfg, read, i) && PeersStart(cfg, read, i)
    modifies wg
    ensures r.Ok? <==> PeersStart(cfg, read, i + 1)
    ensures r.Ok? ==> Registered(wg.Abs(), cfg, read, i + 1) && UsesUpstream(cfg, read, cfg.peers[i], r.value)
    ensures r.Ok? ==> allowed == before + Entries(cfg.peers[i].allowedIps, i)
  {
    var p := cfg.peers[i];
    allowed := before;
    if p.presharedKey.Some? && read.key(p.presharedKey.value).None? { return Err(UnusableKey), allowed; }
    var key := read.key(p.publicKey);
    if key.None? { return Err(UnusableKey), allowed; }
    RegisterOne(wg.Abs(), cfg, read, i, key.value, inner);
    var idx := wg.AddPeer(key.value, inner);
    if idx.None? { return Err(DuplicatePeer), allowed; }
    allowed := PushNets(allowed, p.allowedIps, idx.value);
    var up := UpstreamOf(cfg, read, p);
    if up.Err? { return Err(UnusableUpstream), allowed; }
    return Ok(up.value), allowed;
  }

  method PushNets(before: Table, nets: seq<IpNet>, idx: nat) returns (allowed: Table)
    ensures allowed == before + Entries(nets, idx)
  {
    allowed := before;
    var k := 0;
    while k < |nets|
      invariant 0 <= k <= |nets|
      invariant allowed == before + Entries(nets, idx)[..k]
    {
      allowed := allowed + [(nets[k], idx)];
      k := k + 1;
    }
  }

  lemma PeersStartPrefix(cfg: Config, read: Reader, m: nat)
    requires m <= |cfg.peers| && PeersStart(cfg, read, |cfg.peers|)
    ensures PeersStart(cfg, read, m)
  {
  }

  /** What the set-up loop has built from the first `n` peers. */
  ghost predicate Built(cfg: Config, read: Reader, s: State, allowed: Table, upstreams: seq<Upstream>, n: nat)
    requires n <= |cfg.peers|
  {
    && PeersStart(cfg, read, n) && Registered(s, cfg, read, n)
    && allowed == TableOf(cfg.peers[..n])
    && |upstreams| == n && forall j :: 0 <= j < n ==> UsesUpstream(cfg, read, cfg.peers[j], upstreams[j])
  }

  lemma BuiltExtends(cfg: Config, read: Reader, s: State, before: Table, ups: seq<Upstream>, i: nat, up: Upstream)
    requires i < |cfg.peers| && PeersStart(cfg, read, i + 1) && Registered(s, cfg, read, i + 1)
    requires before == TableOf(cfg.peers[..i]) && UsesUpstream(cfg, read, cfg.peers[i], up)
    requires |ups| == i && forall j :: 0 <= j < i ==> UsesUpstream(cfg, read, cfg.peers[j], ups[j])
    ensures Built(cfg, read, s, before + Entries(cfg.peers[i].allowedIps, i), ups + [up], i + 1)
  {
    assert cfg.peers[..i + 1][..i] == cfg.peers[..i];
  }

  method StartOne(cfg: Config, read: Reader, wg: Wg, i: nat, before: Table, ups: seq<Upstream>)
    returns (r: Result<(), StartError>, allowed: Table, upstreams: seq<Upstream>)
    requires i < |cfg.peers| && Built(cfg, read, wg.Abs(), before, ups, i)
    modifies wg
    ensures r.Ok? <==> PeersStart(cfg, read, i + 1)
    ensures r.Ok? ==> Built(cfg, read, wg.Abs(), allowed, upstreams, i + 1)
  {
    var up;
    up, allowed := StartPeer(cfg, read, wg, i, i, before);
    if up.Err? { return Err(up.error), before, ups; }
    upstreams := ups + [up.value];
    BuiltExtends(cfg, read, wg.Abs(), before, ups, i, up.value);
    return Ok(()), allowed, upstreams;
  }

  method StartPeers(cfg: Config, read: Reader, wg: Wg)
    returns (r: Result<(), StartError>, allowed: Table, upstreams: seq<Upstream>)
    requires wg.Abs() == EMPTY
    modifies wg
    ensures r.Ok? <==> PeersStart(cfg, read, |cfg.peers|)
    ensures r.Ok? ==> Built(cfg, read, wg.Abs(), allowed, upstreams, |cfg.peers|)
  {
    allowed, upstreams := [], [];
    var i := 0;
    while i < |cfg.peers|
      invariant 0 <= i <= |cfg.peers|
      invariant Built(cfg, read, wg.Abs(), allowed, upstreams, i)
    {
      if PeersStart(cfg, read, |cfg.peers|) {
        PeersStartPrefix(cfg, read, i + 1);
      }
      r, allowed, upstreams := StartOne(cfg, read, wg, i, allowed, upstreams);
      if r.Err? { return; }
      i := i + 1;
    }
    return Ok(()), allowed, upstreams;
  }

  method Start(cfg: Config, read: Reader, session: Session) returns (r: Result<Setup, StartError>)
    ensures r.Ok? <==> Startable(cfg, read)
    ensures r.Ok? ==>
              var s := r.value;
              && fresh(s.wg) && s.wg.session == session
              && Built(cfg, read, s.wg.Abs(), s.allowed, s.upstreams, |cfg.peers|)
              && s.allowed == TableOf(cfg.peers)
  {
    if read.upstream(cfg.upstream).Err? { return Err(UnusableUpstream); }
    if read.key(cfg.privateKey).None? { return Err(UnusableKey); }
    var wg := new Wg(session);
    var started, allowed, upstreams := StartPeers(cfg, read, wg);
    if started.Err? { return Err(started.error); }
    assert cfg.peers[..|cfg.peers|] == cfg.peers;
    return Ok(Setup(wg, allowed, upstreams));
  }
}
