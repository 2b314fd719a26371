/** Addresses and CIDR prefixes. A prefix keeps its host bits, as `IpNet` does, and stands for the aligned
    block of addresses around them. The lemmas say that these blocks are laminar: two of them are nested or
    disjoint, which is what makes the pairwise overlap test of the server configuration exact. */
module Prefixes {

  type U16 = x: nat | x < 0x1_0000
  type U32 = x: nat | x < 0x1_0000_0000
  type U128 = x: nat | x < 0x1_0000_0000_0000_0000_0000_0000_0000_0000

  datatype Ip = V4(bits4: U32) | V6(bits6: U128) {
    function Bits(): nat {
      match this
      case V4(b) => b
      case V6(b) => b
    }

    function Width(): nat {
      if V4? then 32 else 128
    }
  }

  datatype SockAddr = SockAddr(ip: Ip, port: U16)

  datatype Prefix = Prefix(addr: Ip, len: nat)

  type IpNet = p: Prefix | p.len <= p.addr.Width() witness Prefix(V4(0), 0)

  // ----- bits

  function Pow2(k: nat): (p: nat)
    ensures p > 0
  {
    if k == 0 then 1 else 2 * Pow2(k - 1)
  }

  /** `a` shifted right by `k` bits. */
  function Shr(a: nat, k: nat): nat
    decreases k, a
  {
    if k == 0 then a else Shr(a / 2, k - 1)
  }

  /** `a` with its low `k` bits cleared. */
  function Floor(a: nat, k: nat): (f: nat)
    ensures f <= a < f + Pow2(k)
    decreases k, a
  {
    if k == 0 then a else 2 * Floor(a / 2, k - 1)
  }

  /** An address lies in the `k`-bit block of `a` exactly when the two agree above bit `k`. */
  lemma {:induction false} BlockIffShr(x: nat, a: nat, k: nat)
    ensures Floor(a, k) <= x < Floor(a, k) + Pow2(k) <==> Shr(x, k) == Shr(a, k)
  {
    if k > 0 {
      BlockIffShr(x / 2, a / 2, k - 1);
    }
  }

  lemma {:induction false} ShrShr(a: nat, j: nat, k: nat)
    ensures Shr(a, j + k) == Shr(Shr(a, j), k)
    decreases j
  {
    if j > 0 {
      ShrShr(a / 2, j - 1, k);
    }
  }

  lemma DoubleProduct(a: nat, b: nat)
    ensures 2 * (a * b) == (2 * a) * b
  {
  }

  lemma {:induction false} Pow2Split(j: nat, k: nat)
    ensures Pow2(j + k) == Pow2(j) * Pow2(k)
    decreases j
  {
    if j == 0 {
      assert Pow2(0) == 1;
    } else {
      Pow2Split(j - 1, k);
      DoubleProduct(Pow2(j - 1), Pow2(k));
      assert Pow2(j + k) == 2 * Pow2(j - 1 + k);
    }
  }

  /** A block inside a width of `j + k` bits stays inside it. */
  lemma {:induction false} FloorFits(a: nat, j: nat, k: nat)
    requires a < Pow2(j + k)
    ensures Floor(a, k) + Pow2(k) <= Pow2(j + k)
    decreases k
  {
    if k > 0 {
      FloorFits(a / 2, j, k - 1);
    }
  }

  // ----- prefixes

  function HostBits(n: IpNet): nat {
    n.addr.Width() - n.len
  }

  /** First address of the block. */
  function Network(n: IpNet): nat {
    Floor(n.addr.Bits(), HostBits(n))
  }

  /** Last address of the block. */
  function Broadcast(n: IpNet): nat {
    Network(n) + (Pow2(HostBits(n)) - 1)
  }

  predicate SameFamily(a: Ip, b: Ip) {
    a.V4? == b.V4?
  }

  predicate Contains(n: IpNet, ip: Ip) {
    SameFamily(n.addr, ip) && Network(n) <= ip.Bits() <= Broadcast(n)
  }

  predicate ContainsNet(o: IpNet, n: IpNet) {
    SameFamily(o.addr, n.addr) && Network(o) <= Network(n) && Broadcast(n) <= Broadcast(o)
  }

  /** The test `validate` makes on a pair of prefixes. */
  predicate OverlapTest(o: IpNet, n: IpNet) {
    Contains(o, n.addr) || Contains(n, o.addr)
  }

  ghost predicate Share(a: IpNet, b: IpNet) {
    exists ip :: Contains(a, ip) && Contains(b, ip)
  }

  ghost predicate Inside(n: IpNet, o: IpNet) {
    forall ip :: Contains(n, ip) ==> Contains(o, ip)
  }

  lemma ContainsIffShr(n: IpNet, ip: Ip)
    ensures Contains(n, ip) <==> SameFamily(n.addr, ip) && Shr(ip.Bits(), HostBits(n)) == Shr(n.addr.Bits(), HostBits(n))
  {
    BlockIffShr(ip.Bits(), n.addr.Bits(), HostBits(n));
  }

  lemma {:induction false} ProductOrder(d: nat, x: nat, y: nat)
    ensures x < y ==> d * x + d <= d * y
    decreases y
  {
    if x < y {
      ProductOrder(d, x, y - 1);
      assert d * y == d * (y - 1) + d;
    }
  }

  lemma DivUnique(a: nat, d: nat, q: nat, r: nat)
    requires a == q * d + r && r < d
    ensures a / d == q
  {
    ProductOrder(d, q, a / d);
    ProductOrder(d, a / d, q);
  }

  lemma HalveDivide(a: nat, p: nat)
    requires p > 0
    ensures a / (2 * p) == a / 2 / p
  {
    var q, r := a / 2 / p, a / 2 % p;
    assert a / 2 == q * p + r;
    assert a == q * (2 * p) + (2 * r + a % 2);
    DivUnique(a, 2 * p, q, 2 * r + a % 2);
  }

  lemma {:induction false} ShrDivides(a: nat, k: nat)
    ensures Shr(a, k) == a / Pow2(k)
    decreases k
  {
    if k > 0 {
      ShrDivides(a / 2, k - 1);
      HalveDivide(a, Pow2(k - 1));
    }
  }

  lemma {:induction false} FloorMultiplies(a: nat, k: nat)
    ensures Floor(a, k) == Pow2(k) * (a / Pow2(k))
    decreases k
  {
    if k > 0 {
      FloorMultiplies(a / 2, k - 1);
      HalveDivide(a, Pow2(k - 1));
      DoubleProduct(Pow2(k - 1), a / Pow2(k));
    }
  }

  /** A prefix holds exactly the addresses of its family that agree with it in their first `len` bits. */
  lemma ContainsExactly(n: IpNet, ip: Ip)
    ensures Contains(n, ip) <==>
              if n.addr.V4? then ip.V4? && ip.bits4 / Pow2(32 - n.len) == n.addr.bits4 / Pow2(32 - n.len)
              else ip.V6? && ip.bits6 / Pow2(128 - n.len) == n.addr.bits6 / Pow2(128 - n.len)
  {
    ContainsIffShr(n, ip);
    ShrDivides(ip.Bits(), HostBits(n));
    ShrDivides(n.addr.Bits(), HostBits(n));
  }

  lemma ContainsOwnAddress(n: IpNet)
    ensures Contains(n, n.addr)
  {
  }

  /** A longer prefix that shares an address with a shorter one lies inside it. */
  lemma Laminar(short: IpNet, long: IpNet, shared: Ip, ip: Ip)
    requires short.len <= long.len
    requires Contains(short, shared) && Contains(long, shared) && Contains(long, ip)
    ensures Contains(short, ip)
  {
    ShrShr(shared.Bits(), HostBits(long), HostBits(short) - HostBits(long));
    ShrShr(ip.Bits(), HostBits(long), HostBits(short) - HostBits(long));
    ContainsIffShr(short, shared);
    ContainsIffShr(long, shared);
    ContainsIffShr(long, ip);
    ContainsIffShr(short, ip);
  }

  /** Testing each prefix against the other's own address decides exactly whether the blocks meet, host bits
      or not. */
  lemma OverlapTestExact(o: IpNet, n: IpNet)
    ensures OverlapTest(o, n) <==> Share(o, n)
  {
    ContainsOwnAddress(o);
    ContainsOwnAddress(n);
    if Share(o, n) {
      var ip :| Contains(o, ip) && Contains(n, ip);
      if o.len <= n.len {
        Laminar(o, n, ip, n.addr);
      } else {
        Laminar(n, o, ip, o.addr);
      }
    }
  }

  lemma Pow2Sum(j: nat, k: nat, p: nat, q: nat)
    requires Pow2(j) == p && Pow2(k) == q
    ensures Pow2(j + k) == p * q
  {
    Pow2Split(j, k);
  }

  lemma Width4()
    ensures Pow2(8) == 0x100 && Pow2(16) == 0x1_0000 && Pow2(32) == 0x1_0000_0000
  {
    assert Pow2(4) == 16;
    Pow2Sum(4, 4, 0x10, 0x10);
    Pow2Sum(8, 8, 0x100, 0x100);
    Pow2Sum(16, 16, 0x1_0000, 0x1_0000);
  }

  lemma Width6()
    ensures Pow2(128) == 0x1_0000_0000_0000_0000_0000_0000_0000_0000
  {
    Width4();
    Pow2Sum(32, 32, 0x1_0000_0000, 0x1_0000_0000);
    Pow2Sum(64, 64, 0x1_0000_0000_0000_0000, 0x1_0000_0000_0000_0000);
  }

  lemma BlockFits(n: IpNet)
    ensures Broadcast(n) < Pow2(n.addr.Width())
  {
    Width4();
    Width6();
    FloorFits(n.addr.Bits(), n.len, HostBits(n));
  }

  function At(family: Ip, bits: nat): (ip: Ip)
    requires bits < if family.V4? then 0x1_0000_0000 else 0x1_0000_0000_0000_0000_0000_0000_0000_0000
    ensures SameFamily(ip, family) && ip.Bits() == bits
  {
    if family.V4? then V4(bits) else V6(bits)
  }

  /** The end-point comparison between two prefixes is inclusion of their address sets. */
  lemma ContainsNetExact(o: IpNet, n: IpNet)
    ensures ContainsNet(o, n) <==> Inside(n, o)
  {
    Width4();
    Width6();
    BlockFits(n);
    if Inside(n, o) {
      var first, last := At(n.addr, Network(n)), At(n.addr, Broadcast(n));
      assert Contains(n, first) && Contains(n, last);
    }
  }
}
