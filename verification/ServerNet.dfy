/** Who may send where: the destination filter and the longest-prefix ownership lookup. */
module ServerNet {
  import opened Prefixes
  import opened Basics

  // ----- the destination filter

  /** Bitwise and of two naturals. */
  function And(x: nat, m: nat): nat
    decreases x
  {
    if x == 0 then 0 else (if x % 2 == 1 && m % 2 == 1 then 1 else 0) + 2 * And(x / 2, m / 2)
  }

  /** Octet `i` of an IPv4 address, the most significant first. */
  function Octet(a: U32, i: nat): nat
    requires i < 4
  {
    if i == 0 then a / 0x100_0000
    else if i == 1 then a / 0x1_0000 % 256
    else if i == 2 then a / 0x100 % 256
    else a % 256
  }

  /** First 16-bit segment of an IPv6 address. */
  function Segment0(a: U128): nat {
    a / 0x1_0000_0000_0000_0000_0000_0000_0000
  }

  function MappedV4(a: U128): Option<U32> {
    if a / 0x1_0000_0000 == 0xffff then Some(a % 0x1_0000_0000) else None
  }

  predicate Refused4(a: U32) {
    || Octet(a, 0) == 127 || a == 0 || And(Octet(a, 0), 0xf0) == 224 || a == 0xffff_ffff
    || (Octet(a, 0) == 169 && Octet(a, 1) == 254) || Octet(a, 0) == 0
  }

  predicate Private4(a: U32) {
    || Octet(a, 0) == 10
    || (Octet(a, 0) == 172 && And(Octet(a, 1), 0xf0) == 16)
    || (Octet(a, 0) == 192 && Octet(a, 1) == 168)
    || (Octet(a, 0) == 100 && And(Octet(a, 1), 0xc0) == 64)
    || (Octet(a, 0) == 192 && Octet(a, 1) == 0 && Octet(a, 2) == 0)
    || (Octet(a, 0) == 198 && And(Octet(a, 1), 0xfe) == 18)
    || And(Octet(a, 0), 0xf0) == 240
  }

  predicate Refused6(a: U128) {
    a == 1 || a == 0 || And(Segment0(a), 0xff00) == 0xff00 || And(Segment0(a), 0xffc0) == 0xfe80
  }

  predicate Private6(a: U128) {
    And(Segment0(a), 0xfe00) == 0xfc00
  }

  /** The isolation gate, on octets and segments. */
  predicate AllowedDst(wgNet: IpNet, ip: Ip, allowPrivate: bool)
    decreases ip.V6?
  {
    if Contains(wgNet, ip) then false
    else
      match ip
      case V4(a) => if Refused4(a) then false else allowPrivate || !Private4(a)
      case V6(a) =>
        match MappedV4(a)
        case Some(v4) => AllowedDst(wgNet, V4(v4), allowPrivate)
        case None => if Refused6(a) then false else allowPrivate || !Private6(a)
  }

  // The ranges of the documentation, by their first and last address.

  /** Never reachable: this network, loopback, link-local, multicast, broadcast. */
  predicate AlwaysRefused4(x: nat) {
    || x <= 0x00ff_ffff
    || 0x7f00_0000 <= x <= 0x7fff_ffff
    || 0xa9fe_0000 <= x <= 0xa9fe_ffff
    || 0xe000_0000 <= x <= 0xefff_ffff
    || x == 0xffff_ffff
  }

  /** Never reachable over IPv6: unspecified and loopback, multicast, link-local. */
  predicate AlwaysRefused6(x: nat) {
    || x <= 1
    || 0xff00_0000_0000_0000_0000_0000_0000_0000 <= x < 0x1_0000_0000_0000_0000_0000_0000_0000_0000
    || 0xfe80_0000_0000_0000_0000_0000_0000_0000 <= x < 0xfec0_0000_0000_0000_0000_0000_0000_0000
  }

  /** Reachable only by opting in: 10/8, 172.16/12, 192.168/16, 100.64/10, 192.0.0/24, 198.18/15, 240/4. */
  predicate OptIn4(x: nat) {
    || 0x0a00_0000 <= x <= 0x0aff_ffff
    || 0xac10_0000 <= x <= 0xac1f_ffff
    || 0xc0a8_0000 <= x <= 0xc0a8_ffff
    || 0x6440_0000 <= x <= 0x647f_ffff
    || 0xc000_0000 <= x <= 0xc000_00ff
    || 0xc612_0000 <= x <= 0xc613_ffff
    || 0xf000_0000 <= x
  }

  /** fc00::/7. */
  predicate OptIn6(x: nat) {
    0xfc00_0000_0000_0000_0000_0000_0000_0000 <= x < 0xfe00_0000_0000_0000_0000_0000_0000_0000
  }

  predicate AlwaysRefused(ip: Ip) {
    match ip
    case V4(x) => AlwaysRefused4(x)
    case V6(x) => AlwaysRefused6(x)
  }

  predicate OptIn(ip: Ip) {
    match ip
    case V4(x) => OptIn4(x)
    case V6(x) => OptIn6(x)
  }

  /** The address a packet really aims at: for one in ::ffff:0:0/96, the IPv4 address in its low 32 bits. */
  function Canonical(ip: Ip): Ip {
    if ip.V6? && 0xffff_0000_0000 <= ip.bits6 <= 0xffff_ffff_ffff then V4(ip.bits6 - 0xffff_0000_0000) else ip
  }

  /** `j` ones above `k` zeros. */
  function Mask(j: nat, k: nat): nat {
    if k == 0 then Pow2(j) - 1 else 2 * Mask(j, k - 1)
  }

  lemma {:induction false} AndOnes(x: nat, j: nat)
    requires x < Pow2(j)
    ensures And(x, Pow2(j) - 1) == x
    decreases j
  {
    if j > 0 && x > 0 {
      var m, h := Pow2(j) - 1, Pow2(j - 1) - 1;
      assert m == 2 * h + 1;
      assert m / 2 == h && m % 2 == 1;
      AndOnes(x / 2, j - 1);
    }
  }

  lemma {:induction false} AndMask(x: nat, j: nat, k: nat)
    requires x < Pow2(j + k)
    ensures And(x, Mask(j, k)) == Floor(x, k)
    decreases k
  {
    if k == 0 {
      AndOnes(x, j);
    } else {
      AndMask(x / 2, j, k - 1);
    }
  }

  lemma {:induction false} FloorIs(x: nat, v: nat, k: nat)
    requires Floor(v, k) == v
    ensures Floor(x, k) == v <==> v <= x < v + Pow2(k)
    decreases k
  {
    if k > 0 {
      FloorIs(x / 2, v / 2, k - 1);
    }
  }

  /** Comparing under a mask of `j` ones above `k` zeros is testing a range of length 2^k. */
  lemma MaskedRange(x: nat, j: nat, k: nat, mask: nat, v: nat)
    requires x < Pow2(j + k) && mask == Mask(j, k) && Floor(v, k) == v
    ensures And(x, mask) == v <==> v <= x < v + Pow2(k)
  {
    AndMask(x, j, k);
    FloorIs(x, v, k);
  }

  lemma NibbleMasks(o: nat)
    requires o < 256
    ensures And(o, 0xf0) == 16 <==> 16 <= o < 32
    ensures And(o, 0xf0) == 224 <==> 224 <= o < 240
    ensures And(o, 0xf0) == 240 <==> 240 <= o
  {
    Width4();
    assert Pow2(4) == 16;
    MaskedRange(o, 4, 4, 0xf0, 224);
    MaskedRange(o, 4, 4, 0xf0, 240);
    MaskedRange(o, 4, 4, 0xf0, 16);
  }

  lemma OddMasks(o: nat)
    requires o < 256
    ensures And(o, 0xc0) == 64 <==> 64 <= o < 128
    ensures And(o, 0xfe) == 18 <==> 18 <= o < 20
  {
    Width4();
    assert Pow2(1) == 2 && Pow2(6) == 64;
    MaskedRange(o, 2, 6, 0xc0, 64);
    MaskedRange(o, 7, 1, 0xfe, 18);
  }

  lemma MulticastMask(w: nat)
    requires w < 0x1_0000
    ensures And(w, 0xff00) == 0xff00 <==> 0xff00 <= w
  {
    Width4();
    MaskedRange(w, 8, 8, 0xff00, 0xff00);
  }

  lemma LinkLocalMask(w: nat)
    requires w < 0x1_0000
    ensures And(w, 0xffc0) == 0xfe80 <==> 0xfe80 <= w < 0xfec0
  {
    Width4();
    assert Pow2(6) == 64;
    MaskedRange(w, 10, 6, 0xffc0, 0xfe80);
  }

  lemma UniqueLocalMask(w: nat)
    requires w < 0x1_0000
    ensures And(w, 0xfe00) == 0xfc00 <==> 0xfc00 <= w < 0xfe00
  {
    Width4();
    assert Pow2(9) == 512;
    MaskedRange(w, 7, 9, 0xfe00, 0xfc00);
  }

  predicate RefusedRanges(a: nat, o0: nat, o1: nat) {
    a == 0xffff_ffff || a == 0 || o0 == 0 || o0 == 127 || (o0 == 169 && o1 == 254) || 224 <= o0 < 240
  }

  predicate PrivateRanges(o0: nat, o1: nat, o2: nat) {
    || o0 == 10 || (o0 == 172 && 16 <= o1 < 32) || (o0 == 192 && o1 == 168) || (o0 == 100 && 64 <= o1 < 128)
    || (o0 == 192 && o1 == 0 && o2 == 0) || (o0 == 198 && 18 <= o1 < 20) || 240 <= o0
  }

  lemma MasksAreRanges(a: U32)
    ensures Refused4(a) <==> RefusedRanges(a, Octet(a, 0), Octet(a, 1))
    ensures Private4(a) <==> PrivateRanges(Octet(a, 0), Octet(a, 1), Octet(a, 2))
  {
    NibbleMasks(Octet(a, 0));
    NibbleMasks(Octet(a, 1));
    OddMasks(Octet(a, 1));
  }

  lemma RangesExact4(a: U32)
    ensures AlwaysRefused4(a) <==> RefusedRanges(a, Octet(a, 0), Octet(a, 1))
    ensures OptIn4(a) <==> PrivateRanges(Octet(a, 0), Octet(a, 1), Octet(a, 2))
  {
  }

  lemma RangesExact6(a: U128)
    ensures AlwaysRefused6(a) <==> Refused6(a)
    ensures OptIn6(a) <==> Private6(a)
  {
    MulticastMask(Segment0(a));
    LinkLocalMask(Segment0(a));
    UniqueLocalMask(Segment0(a));
  }

  lemma Verdict4(wgNet: IpNet, a: U32, allowPrivate: bool)
    ensures AllowedDst(wgNet, V4(a), allowPrivate) <==>
              !Contains(wgNet, V4(a)) && !AlwaysRefused4(a) && (allowPrivate || !OptIn4(a))
  {
    MasksAreRanges(a);
    RangesExact4(a);
  }

  /** An IPv6 address that maps none is judged by the IPv6 ranges. */
  lemma Verdict6(wgNet: IpNet, a: U128, allowPrivate: bool)
    requires a < 0xffff_0000_0000 || 0xffff_ffff_ffff < a
    ensures AllowedDst(wgNet, V6(a), allowPrivate) <==>
              !Contains(wgNet, V6(a)) && !AlwaysRefused6(a) && (allowPrivate || !OptIn6(a))
  {
    assert MappedV4(a).None?;
    RangesExact6(a);
  }

  /** A mapped address outside the tunnel subnet gets exactly the verdict of the IPv4 address it maps. */
  lemma MappedVerdict(wgNet: IpNet, v: U32, allowPrivate: bool)
    ensures AllowedDst(wgNet, V6(0xffff_0000_0000 + v), allowPrivate) <==>
              !Contains(wgNet, V6(0xffff_0000_0000 + v)) && AllowedDst(wgNet, V4(v), allowPrivate)
  {
    assert MappedV4(0xffff_0000_0000 + v) == Some(v);
  }

  /** The filter admits exactly the addresses outside the tunnel subnet, outside the refused ranges and, without
      the opt-in, outside the private ones. The ranges are read on the address the packet really aims at; the
      tunnel subnet is read on both forms. */
  lemma AllowedExactly(wgNet: IpNet, ip: Ip, allowPrivate: bool)
    ensures AllowedDst(wgNet, ip, allowPrivate) <==>
              && !Contains(wgNet, ip) && !Contains(wgNet, Canonical(ip))
              && !AlwaysRefused(Canonical(ip))
              && (allowPrivate || !OptIn(Canonical(ip)))
  {
    match Canonical(ip)
    case V4(x) =>
      Verdict4(wgNet, x, allowPrivate);
      if ip.V6? { MappedVerdict(wgNet, x, allowPrivate); }
    case V6(x) => Verdict6(wgNet, x, allowPrivate);
  }

  // ----- the ownership lookup

  type Table = seq<(IpNet, nat)>

  /** Index of the entry that wins for `ip`: a later entry replaces one no longer than itself. */
  function BestEntry(table: Table, ip: Ip): (r: Option<nat>)
    ensures r.Some? ==>
              && r.value < |table| && Contains(table[r.value].0, ip)
              && (forall j :: 0 <= j < |table| && Contains(table[j].0, ip) ==>
                    if j <= r.value then table[j].0.len <= table[r.value].0.len
                    else table[j].0.len < table[r.value].0.len)
    ensures r.None? <==> forall j :: 0 <= j < |table| ==> !Contains(table[j].0, ip)
  {
    if table == [] then None
    else
      var last := |table| - 1;
      var before := BestEntry(table[..last], ip);
      if Contains(table[last].0, ip) && (before.None? || table[before.value].0.len <= table[last].0.len) then Some(last)
      else before
  }

  function PeerFor(table: Table, ip: Ip): Option<nat> {
    match BestEntry(table, ip)
    case None => None
    case Some(k) => Some(table[k].1)
  }

  /** No address belongs to two entries of different peers. */
  ghost predicate Unambiguous(table: Table) {
    forall e, f, ip :: e in table && f in table && Contains(e.0, ip) && Contains(f.0, ip) ==> e.1 == f.1
  }

  /** Over an unambiguous table the lookup is the owner relation itself: it finds peer `i` exactly when one of the
      prefixes of `i` holds the address. */
  lemma PeerForIsOwner(table: Table, ip: Ip, i: nat)
    requires Unambiguous(table)
    ensures PeerFor(table, ip) == Some(i) <==> exists e :: e in table && Contains(e.0, ip) && e.1 == i
  {
    var best := BestEntry(table, ip);
    if best.Some? {
      assert table[best.value] in table;
    }
  }

  /** ... so the order in which the configuration lists peers and prefixes cannot matter. */
  lemma PeerForPermuted(table: Table, other: Table, ip: Ip)
    requires Unambiguous(table) && multiset(table) == multiset(other)
    ensures PeerFor(table, ip) == PeerFor(other, ip)
  {
    forall e ensures e in table <==> e in other {
      assert e in table <==> e in multiset(table);
      assert e in other <==> e in multiset(other);
    }
    var found := PeerFor(other, ip);
    if found.Some? {
      PeerForIsOwner(other, ip, found.value);
      PeerForIsOwner(table, ip, found.value);
    } else if PeerFor(table, ip).Some? {
      PeerForIsOwner(table, ip, PeerFor(table, ip).value);
      PeerForIsOwner(other, ip, PeerFor(table, ip).value);
    }
  }
}
