/** Numbers as bytes in network order. */
module Octets {
  import opened Basics
  import opened Prefixes

  function Pow256(n: nat): nat {
    if n == 0 then 1 else 256 * Pow256(n - 1)
  }

  function Be(v: nat, n: nat): (b: Bytes)
    ensures |b| == n
    decreases n, v
  {
    if n == 0 then [] else Be(v / 256, n - 1) + [v % 256]
  }

  function FromBe(b: Bytes): (v: nat)
    ensures v < Pow256(|b|)
  {
    if b == [] then 0 else 256 * FromBe(b[..|b| - 1]) + b[|b| - 1]
  }

  /** The first octet counts most: each one in front adds its full weight. */
  lemma {:induction false} FirstOctetWeighs(o: Byte, b: Bytes)
    ensures FromBe([o] + b) == o * Pow256(|b|) + FromBe(b)
    decreases |b|
  {
    if b == [] {
      assert [o] + b == [o] && [o][..0] == [];
    } else {
      var n := |b| - 1;
      FirstOctetWeighs(o, b[..n]);
      assert ([o] + b)[..n + 1] == [o] + b[..n];
      assert o * Pow256(n + 1) == 256 * (o * Pow256(n));
    }
  }

  lemma {:induction false} FromBeOfBe(v: nat, n: nat)
    requires v < Pow256(n)
    ensures FromBe(Be(v, n)) == v
    decreases n
  {
    if n > 0 {
      FromBeOfBe(v / 256, n - 1);
      assert Be(v, n)[..n - 1] == Be(v / 256, n - 1);
    }
  }

  lemma {:induction false} BeOfFromBe(b: Bytes)
    ensures Be(FromBe(b), |b|) == b
    decreases |b|
  {
    if b != [] {
      BeOfFromBe(b[..|b| - 1]);
      assert FromBe(b) / 256 == FromBe(b[..|b| - 1]);
    }
  }

  lemma Widths()
    ensures Pow256(2) == 0x1_0000 && Pow256(4) == 0x1_0000_0000
    ensures Pow256(16) == 0x1_0000_0000_0000_0000_0000_0000_0000_0000
  {
    assert Pow256(8) == 0x1_0000_0000_0000_0000;
  }

  function Port(b: Bytes): U16
    requires |b| == 2
  {
    Widths();
    FromBe(b)
  }

  function Address4(b: Bytes): Ip
    requires |b| == 4
  {
    Widths();
    V4(FromBe(b))
  }

  function Address6(b: Bytes): Ip
    requires |b| == 16
  {
    Widths();
    V6(FromBe(b))
  }
}
