/** Text from bytes, the way `String::from_utf8_lossy` makes it: well-formed text is kept, and each longest broken
    piece of a character becomes U+FFFD. */
module Utf8 {
  import opened Basics

  const REPLACEMENT: Bytes := [0xef, 0xbf, 0xbd]

  predicate Tail(b: Byte) {
    0x80 <= b < 0xc0
  }

  /** What may follow a first byte, by section 4 of RFC 3629. */
  predicate Second(lead: Byte, b: Byte) {
    if lead == 0xe0 then 0xa0 <= b < 0xc0
    else if lead == 0xed then 0x80 <= b < 0xa0
    else if lead == 0xf0 then 0x90 <= b < 0xc0
    else if lead == 0xf4 then 0x80 <= b < 0x90
    else Tail(b)
  }

  /** Length of the character the bytes begin with, by the grammar of section 4 of RFC 3629; 0 if with none. */
  function CharLength(b: Bytes): (k: nat)
    ensures k <= |b|
  {
    if b == [] then 0
    else if b[0] < 0x80 then 1
    else if |b| < 2 || !Second(b[0], b[1]) then 0
    else if 0xc2 <= b[0] <= 0xdf then 2
    else if |b| < 3 || !Tail(b[2]) then 0
    else if 0xe0 <= b[0] <= 0xef then 3
    else if |b| < 4 || !Tail(b[3]) then 0
    else if 0xf0 <= b[0] <= 0xf4 then 4
    else 0
  }

  predicate ValidUtf8(b: Bytes)
    decreases |b|
  {
    b == [] || (CharLength(b) > 0 && ValidUtf8(b[CharLength(b)..]))
  }

  /** Length of the piece replaced when the bytes begin with no character: as much of one as is there. */
  function BrokenLength(b: Bytes): (k: nat)
    requires b != [] && CharLength(b) == 0
    ensures 0 < k <= |b|
  {
    if b[0] < 0xe0 || 0xf4 < b[0] || |b| < 2 || !Second(b[0], b[1]) then 1
    else if b[0] < 0xf0 || |b| < 3 || !Tail(b[2]) then 2
    else 3
  }

  function Lossy(b: Bytes): Bytes
    decreases |b|
  {
    if b == [] then []
    else if CharLength(b) > 0 then b[..CharLength(b)] + Lossy(b[CharLength(b)..])
    else REPLACEMENT + Lossy(b[BrokenLength(b)..])
  }

  /** A character is one whatever follows it. */
  lemma CharAlone(c: Bytes, rest: Bytes)
    requires c != [] && CharLength(c) == |c|
    ensures CharLength(c + rest) == |c| && (c + rest)[|c|..] == rest
  {
  }

  lemma CharPrefix(b: Bytes)
    requires CharLength(b) > 0
    ensures CharLength(b[..CharLength(b)]) == CharLength(b)
  {
  }

  /** The conversion always yields text. */
  lemma {:induction false} LossyValid(b: Bytes)
    ensures ValidUtf8(Lossy(b))
    decreases |b|
  {
    if b == [] {
    } else if CharLength(b) > 0 {
      var k := CharLength(b);
      LossyValid(b[k..]);
      CharPrefix(b);
      CharAlone(b[..k], Lossy(b[k..]));
    } else {
      LossyValid(b[BrokenLength(b)..]);
      CharAlone(REPLACEMENT, Lossy(b[BrokenLength(b)..]));
    }
  }

  /** It changes nothing exactly if the bytes were text already. */
  lemma {:induction false} LossyKeepsIff(b: Bytes)
    ensures Lossy(b) == b <==> ValidUtf8(b)
    decreases |b|
  {
    if b == [] {
    } else if CharLength(b) > 0 {
      var k := CharLength(b);
      LossyKeepsIff(b[k..]);
      assert b == b[..k] + b[k..];
      assert Lossy(b)[k..] == Lossy(b[k..]);
    } else {
      CharAlone(REPLACEMENT, Lossy(b[BrokenLength(b)..]));
    }
  }

  /** Text is never shorter than the bytes it was made from, nor more than three times as long. */
  lemma {:induction false} LossyGrows(b: Bytes)
    ensures |b| <= |Lossy(b)| <= 3 * |b|
    decreases |b|
  {
    if b == [] {
    } else if CharLength(b) > 0 {
      LossyGrows(b[CharLength(b)..]);
    } else {
      LossyGrows(b[BrokenLength(b)..]);
    }
  }

  // ----- characters as numbers

  predicate IsScalar(c: nat) {
    c < 0xd800 || 0xe000 <= c <= 0x10_ffff
  }

  /** Section 3 of RFC 3629: six bits to a byte after the first, and no more bytes than needed. */
  function EncodeScalar(c: nat): (b: Bytes)
    requires IsScalar(c)
    ensures b != []
  {
    if c < 0x80 then [c]
    else if c < 0x800 then [0xc0 + c / 0x40, 0x80 + c % 0x40]
    else if c < 0x1_0000 then [0xe0 + c / 0x1000, 0x80 + c / 0x40 % 0x40, 0x80 + c % 0x40]
    else [0xf0 + c / 0x4_0000, 0x80 + c / 0x1000 % 0x40, 0x80 + c / 0x40 % 0x40, 0x80 + c % 0x40]
  }

  lemma EncodedIsChar(c: nat, rest: Bytes)
    requires IsScalar(c)
    ensures CharLength(EncodeScalar(c) + rest) == |EncodeScalar(c)|
  {
  }

  lemma TwoBytes(b: Bytes) returns (c: nat)
    requires CharLength(b) == 2
    ensures IsScalar(c) && EncodeScalar(c) == b[..2]
  {
    c := (b[0] as nat - 0xc0) * 0x40 + (b[1] - 0x80);
  }

  lemma ThreeBytes(b: Bytes) returns (c: nat)
    requires CharLength(b) == 3
    ensures IsScalar(c) && EncodeScalar(c) == b[..3]
  {
    var high := (b[0] as nat - 0xe0) * 0x40 + (b[1] - 0x80);
    c := high * 0x40 + (b[2] - 0x80);
    assert c / 0x40 == high;
  }

  lemma FourBytes(b: Bytes) returns (c: nat)
    requires CharLength(b) == 4
    ensures IsScalar(c) && EncodeScalar(c) == b[..4]
  {
    var top := (b[0] as nat - 0xf0) * 0x40 + (b[1] - 0x80);
    var high := top * 0x40 + (b[2] - 0x80);
    c := high * 0x40 + (b[3] - 0x80);
    assert c / 0x40 == high && high / 0x40 == top;
  }

  lemma CharIsEncoded(b: Bytes) returns (c: nat)
    requires CharLength(b) > 0
    ensures IsScalar(c) && EncodeScalar(c) == b[..CharLength(b)]
  {
    if CharLength(b) == 1 {
      c := b[0];
    } else if CharLength(b) == 2 {
      c := TwoBytes(b);
    } else if CharLength(b) == 3 {
      c := ThreeBytes(b);
    } else {
      c := FourBytes(b);
    }
  }

  predicate Scalars(cs: seq<nat>) {
    forall i :: 0 <= i < |cs| ==> IsScalar(cs[i])
  }

  function EncodeAll(cs: seq<nat>): Bytes
    requires Scalars(cs)
  {
    if cs == [] then [] else EncodeScalar(cs[0]) + EncodeAll(cs[1..])
  }

  lemma {:induction false} EncodedIsValid(cs: seq<nat>)
    requires Scalars(cs)
    ensures ValidUtf8(EncodeAll(cs))
    decreases |cs|
  {
    if cs != [] {
      EncodedIsValid(cs[1..]);
      EncodedIsChar(cs[0], EncodeAll(cs[1..]));
      var b, k := EncodeAll(cs), |EncodeScalar(cs[0])|;
      assert b[k..] == EncodeAll(cs[1..]);
    }
  }

  lemma EncodeFirst(c: nat, cs: seq<nat>, b: Bytes, k: nat)
    requires IsScalar(c) && Scalars(cs) && k <= |b| && EncodeScalar(c) == b[..k] && EncodeAll(cs) == b[k..]
    ensures Scalars([c] + cs) && EncodeAll([c] + cs) == b
  {
    assert ([c] + cs)[1..] == cs;
    assert b == b[..k] + b[k..];
  }

  lemma {:induction false} ValidIsEncoded(b: Bytes) returns (cs: seq<nat>)
    requires ValidUtf8(b)
    ensures Scalars(cs) && EncodeAll(cs) == b
    decreases |b|
  {
    cs := [];
    if b != [] {
      var k := CharLength(b);
      var c := CharIsEncoded(b);
      var rest := ValidIsEncoded(b[k..]);
      EncodeFirst(c, rest, b, k);
      cs := [c] + rest;
    }
  }

  /** Bytes are text exactly if they are the encoding of some Unicode scalar values. */
  lemma TextExactly(b: Bytes)
    ensures ValidUtf8(b) <==> exists cs :: Scalars(cs) && EncodeAll(cs) == b
  {
    if ValidUtf8(b) {
      var cs := ValidIsEncoded(b);
    }
    if cs :| Scalars(cs) && EncodeAll(cs) == b {
      EncodedIsValid(cs);
    }
  }

  // ----- broken pieces

  /** The bytes begin some character. */
  ghost predicate Begins(p: Bytes) {
    exists more :: CharLength(p + more) > 0 && CharLength(p + more) >= |p|
  }

  /** What is replaced by one mark is the longest piece that begins a character, or a single byte. */
  lemma BrokenIsLongest(b: Bytes, j: nat)
    requires b != [] && CharLength(b) == 0 && j <= |b|
    ensures BrokenLength(b) > 1 ==> Begins(b[..BrokenLength(b)])
    ensures j > BrokenLength(b) ==> !Begins(b[..j])
  {
    var k := BrokenLength(b);
    var p := b[..k];
    if k == 2 {
      assert CharLength(p + [0x80, 0x80]) >= 2;
    } else if k == 3 {
      assert CharLength(p + [0x80]) >= 3;
    }
    if j > k {
      forall more ensures CharLength(b[..j] + more) < j {
        var q := b[..j] + more;
        assert q[0] == b[0] && q[1] == b[1];
        assert j > 2 ==> q[2] == b[2];
        assert j > 3 ==> q[3] == b[3];
      }
    }
  }
}
