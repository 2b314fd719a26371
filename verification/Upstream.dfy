/** `socks5://[user:pass@]host:port` URLs. Text is its UTF-8 bytes. */
module Upstream {
  import opened Basics
  import opened Utf8

  const PERCENT: Byte := 0x25
  const PLUS: Byte := 0x2b
  const COLON: Byte := 0x3a
  const AT: Byte := 0x40
  /** "socks5://" */
  const SCHEME: Bytes := [0x73, 0x6f, 0x63, 0x6b, 0x73, 0x35, 0x3a, 0x2f, 0x2f]

  // ----- percent-decoding

  function HexValue(c: Byte): (r: Option<nat>)
    ensures r.Some? ==> r.value < 16 && c != PERCENT && c != PLUS
  {
    if 0x30 <= c <= 0x39 then Some(c - 0x30)
    else if 0x41 <= c <= 0x46 then Some(c - 0x41 + 10)
    else if 0x61 <= c <= 0x66 then Some(c - 0x61 + 10)
    else None
  }

  /** A digit counts by its place among the sixteen, in letters of either case. */
  lemma HexDigits(c: Byte, d: nat)
    ensures HexValue(c) == Some(d) <==>
              d < 16 && (c == "0123456789abcdef"[d] as int || c == "0123456789ABCDEF"[d] as int)
  {
  }

  /** `u8::from_str_radix(text, 16)` on two characters or on the empty string: a leading plus is a sign. */
  function FromHex(text: Bytes): Option<Byte>
    requires |text| == 0 || |text| == 2
  {
    if text == [] then None
    else if text[0] == PLUS then
      match HexValue(text[1]) case Some(d) => Some(d) case None => None
    else
      match (HexValue(text[0]), HexValue(text[1]))
      case (Some(h), Some(l)) => Some(16 * h + l)
      case _ => None
  }

  /** The two characters after the first, or nothing when there are not that many. */
  function Window(s: Bytes): (w: Bytes)
    ensures |w| == 0 || |w| == 2
  {
    if |s| >= 3 then s[1..3] else []
  }

  function Decode(s: Bytes): Bytes {
    if s == [] then []
    else if s[0] == PERCENT && FromHex(Window(s)).Some? then [FromHex(Window(s)).value] + Decode(s[3..])
    else [s[0]] + Decode(s[1..])
  }

  function WindowAt(raw: Bytes, i: nat): (w: Bytes)
    ensures |w| == 0 || |w| == 2
  {
    if i + 3 <= |raw| then raw[i + 1..i + 3] else []
  }

  lemma DecodeAt(raw: Bytes, i: nat)
    requires i < |raw|
    ensures var code := FromHex(WindowAt(raw, i));
            Decode(raw[i..]) == if code.Some? && raw[i] == PERCENT then [code.value] + Decode(raw[i + 3..])
                                else [raw[i]] + Decode(raw[i + 1..])
  {
    assert Window(raw[i..]) == WindowAt(raw, i);
    assert raw[i..][1..] == raw[i + 1..];
    assert i + 3 <= |raw| ==> raw[i..][3..] == raw[i + 3..];
  }

  lemma Prepend(out: Bytes, b: Byte, rest: Bytes)
    ensures out + ([b] + rest) == out + [b] + rest
  {
  }

  /** Decoding goes piece by piece: a percent sign with two hexadecimal digits is their byte, one with a plus sign and
      a digit is that digit, and any other byte is itself. */
  lemma DecodesEach(a: Byte, b: Byte, c: Byte, rest: Bytes)
    ensures Decode([PERCENT, a, b] + rest) ==
              if HexValue(b).Some? && HexValue(a).Some? then [16 * HexValue(a).value + HexValue(b).value] + Decode(rest)
              else if HexValue(b).Some? && a == 0x2b then [HexValue(b).value] + Decode(rest)
              else [PERCENT] + Decode([a, b] + rest)
    ensures c != PERCENT ==> Decode([c] + rest) == [c] + Decode(rest)
    ensures Decode([PERCENT]) == [PERCENT] && Decode([PERCENT, a]) == [PERCENT] + Decode([a])
  {
    var s := [PERCENT, a, b] + rest;
    assert Window(s) == [a, b] && s[3..] == rest && s[1..] == [a, b] + rest;
    assert ([c] + rest)[1..] == rest;
    assert [PERCENT][1..] == [] && [PERCENT, a][1..] == [a];
  }

  /** The text of a credential half: its bytes decoded, then made text. */
  function Text(raw: Bytes): Bytes {
    Lossy(Decode(raw))
  }

  method PercentDecode(raw: Bytes) returns (text: Bytes)
    ensures text == Text(raw)
  {
    var out: Bytes := [];
    var i := 0;
    while i < |raw|
      invariant 0 <= i <= |raw|
      invariant out + Decode(raw[i..]) == Decode(raw)
    {
      var code := FromHex(WindowAt(raw, i));
      DecodeAt(raw, i);
      if code.Some? && raw[i] == PERCENT {
        Prepend(out, code.value, Decode(raw[i + 3..]));
        out, i := out + [code.value], i + 3;
      } else {
        Prepend(out, raw[i], Decode(raw[i + 1..]));
        out, i := out + [raw[i]], i + 1;
      }
    }
    assert out + [] == out;
    text := Lossy(out);
  }

  /** How someone escapes text: which bytes stay themselves and how hexadecimal digits are written. */
  datatype Style = Style(literal: Byte -> bool, digit: nat -> Byte) {
    ghost predicate Valid() {
      && !literal(PERCENT)
      && forall d :: 0 <= d < 16 ==> HexValue(digit(d)) == Some(d)
    }
  }

  function Encode(b: Bytes, style: Style): Bytes {
    if b == [] then []
    else if style.literal(b[0]) then [b[0]] + Encode(b[1..], style)
    else [PERCENT, style.digit(b[0] / 16), style.digit(b[0] % 16)] + Encode(b[1..], style)
  }

  /** Decoding undoes every way of escaping that always escapes the percent sign, as far as bytes go. */
  lemma {:induction false} DecodeEncode(b: Bytes, style: Style)
    requires style.Valid()
    ensures Decode(Encode(b, style)) == b
  {
    if b != [] {
      var rest := Encode(b[1..], style);
      DecodeEncode(b[1..], style);
      if style.literal(b[0]) {
        assert ([b[0]] + rest)[1..] == rest;
      } else {
        var e := [PERCENT, style.digit(b[0] / 16), style.digit(b[0] % 16)] + rest;
        assert Window(e) == [style.digit(b[0] / 16), style.digit(b[0] % 16)];
        assert e[3..] == rest;
      }
    }
  }

  /** Bytes survive escaping and reading back exactly if they are well-formed UTF-8. */
  lemma TextSurvivesIff(b: Bytes, style: Style)
    requires style.Valid()
    ensures Text(Encode(b, style)) == b <==> ValidUtf8(b)
  {
    DecodeEncode(b, style);
    LossyKeepsIff(b);
  }

  /** One stray byte comes back as the three of the replacement character. */
  lemma StrayByteReplaced(style: Style)
    requires style.Valid()
    ensures Text(Encode([0xff], style)) == [0xef, 0xbf, 0xbd]
  {
    DecodeEncode([0xff], style);
    assert CharLength([0xff]) == 0;
    assert Lossy([]) == [];
  }

  lemma {:induction false} EncodeAvoids(b: Bytes, style: Style, c: Byte)
    requires style.Valid() && !style.literal(c) && c != PERCENT && HexValue(c).None?
    ensures c !in Encode(b, style)
  {
    if b != [] {
      EncodeAvoids(b[1..], style, c);
    }
  }

  /** Section 2.1 of RFC 3986: an escape is a percent sign and two hexadecimal digits. */
  function StrictDecode(s: Bytes): Bytes {
    if s == [] then []
    else if s[0] == PERCENT && |s| >= 3 && HexValue(s[1]).Some? && HexValue(s[2]).Some? then
      [16 * HexValue(s[1]).value + HexValue(s[2]).value] + StrictDecode(s[3..])
    else [s[0]] + StrictDecode(s[1..])
  }

  ghost predicate SignedEscapeAt(s: Bytes, i: int) {
    0 <= i && i + 2 < |s| && s[i] == PERCENT && s[i + 1] == PLUS && HexValue(s[i + 2]).Some?
  }

  ghost predicate HasSignedEscape(s: Bytes) {
    exists i :: SignedEscapeAt(s, i)
  }

  lemma SignedEscapeSuffix(s: Bytes, n: nat)
    requires n <= |s| && forall i :: 0 <= i < n ==> !SignedEscapeAt(s, i)
    ensures HasSignedEscape(s) <==> HasSignedEscape(s[n..])
  {
    if HasSignedEscape(s) {
      var i :| SignedEscapeAt(s, i);
      assert SignedEscapeAt(s[n..], i - n);
    }
    if HasSignedEscape(s[n..]) {
      var i :| SignedEscapeAt(s[n..], i);
      assert SignedEscapeAt(s, i + n);
    }
  }

  /** A signed escape is one byte to the decoder and three to the standard. */
  lemma SignedHead(s: Bytes)
    requires SignedEscapeAt(s, 0)
    ensures |Decode(s)| == 1 + |Decode(s[3..])| && |StrictDecode(s)| == 3 + |StrictDecode(s[3..])|
  {
    assert Window(s) == [s[1], s[2]];
    assert s[1..][1..] == s[2..] && s[2..][1..] == s[3..];
    assert StrictDecode(s[1..]) == [s[1]] + StrictDecode(s[2..]);
    assert StrictDecode(s[2..]) == [s[2]] + StrictDecode(s[3..]);
  }

  /** An unsigned one is the same byte to both. */
  lemma PlainHead(s: Bytes) returns (b: Byte)
    requires s != [] && s[0] == PERCENT && FromHex(Window(s)).Some? && s[1] != PLUS
    ensures |s| >= 3 && Decode(s) == [b] + Decode(s[3..]) && StrictDecode(s) == [b] + StrictDecode(s[3..])
  {
    var w := [s[1], s[2]];
    assert Window(s) == w;
    assert w[0] != PLUS && FromHex(w).Some?;
    b := 16 * HexValue(w[0]).value + HexValue(w[1]).value;
    assert FromHex(w) == Some(b);
  }

  lemma {:induction false} DecodeVersusStrict(s: Bytes)
    ensures |Decode(s)| <= |StrictDecode(s)|
    ensures !HasSignedEscape(s) ==> Decode(s) == StrictDecode(s)
    ensures HasSignedEscape(s) ==> |Decode(s)| < |StrictDecode(s)|
    decreases |s|
  {
    if s == [] {
    } else if s[0] == PERCENT && FromHex(Window(s)).Some? {
      DecodeVersusStrict(s[3..]);
      if s[1] == PLUS {
        assert SignedEscapeAt(s, 0);
        SignedHead(s);
      } else {
        var b := PlainHead(s);
        SignedEscapeSuffix(s, 3);
      }
    } else {
      DecodeVersusStrict(s[1..]);
      SignedEscapeSuffix(s, 1);
    }
  }

  /** The decoder is the standard one exactly on text without a signed escape such as "%+f", which it takes for a
      single byte. */
  lemma DecodeIsStrictIff(s: Bytes)
    ensures Decode(s) == StrictDecode(s) <==> !HasSignedEscape(s)
  {
    DecodeVersusStrict(s);
  }

  // ----- splitting

  function SplitOnce(s: Bytes, c: Byte): (r: Option<(Bytes, Bytes)>)
    ensures r.Some? ==> s == r.value.0 + [c] + r.value.1 && c !in r.value.0
    ensures r.None? <==> c !in s
  {
    if s == [] then None
    else if s[0] == c then Some(([], s[1..]))
    else
      match SplitOnce(s[1..], c)
      case None => None
      case Some((a, b)) => Some(([s[0]] + a, b))
  }

  function RSplitOnce(s: Bytes, c: Byte): (r: Option<(Bytes, Bytes)>)
    ensures r.Some? ==> s == r.value.0 + [c] + r.value.1 && c !in r.value.1
    ensures r.None? <==> c !in s
  {
    if s == [] then None
    else
      var last := |s| - 1;
      if s[last] == c then Some((s[..last], []))
      else
        match RSplitOnce(s[..last], c)
        case None => None
        case Some((a, b)) => assert s == s[..last] + [s[last]]; Some((a, b + [s[last]]))
  }

  lemma SplitUnique(a: Bytes, b: Bytes, x: Bytes, y: Bytes, c: Byte)
    requires a + [c] + b == x + [c] + y && c !in a && c !in x
    ensures a == x && b == y
  {
    var s := a + [c] + b;
    assert s[|a|] == c && s[|x|] == c;
    assert forall i :: 0 <= i < |a| ==> s[i] == a[i];
    assert forall i :: 0 <= i < |x| ==> s[i] == x[i];
    assert |a| == |x|;
    assert a == s[..|a|] && x == s[..|x|] && b == s[|a| + 1..] && y == s[|x| + 1..];
  }

  lemma RSplitUnique(a: Bytes, b: Bytes, x: Bytes, y: Bytes, c: Byte)
    requires a + [c] + b == x + [c] + y && c !in b && c !in y
    ensures a == x && b == y
  {
    var s := a + [c] + b;
    assert s[|a|] == c && s[|x|] == c;
    assert forall i :: |a| < i < |s| ==> s[i] == b[i - |a| - 1];
    assert forall i :: |x| < i < |s| ==> s[i] == y[i - |x| - 1];
    assert |a| == |x|;
    assert a == s[..|a|] && x == s[..|x|] && b == s[|a| + 1..] && y == s[|x| + 1..];
  }

  // ----- ports

  /** Value of a string of decimal digits. */
  function Decimal(s: Bytes): Option<nat> {
    if s == [] then Some(0)
    else
      var last := |s| - 1;
      match Decimal(s[..last])
      case None => None
      case Some(v) => if 0x30 <= s[last] <= 0x39 then Some(10 * v + (s[last] - 0x30)) else None
  }

  /** `str::parse::<u16>`: an optional plus, at least one digit, no overflow. */
  function ParseU16(s: Bytes): Option<nat> {
    var digits := if s != [] && s[0] == PLUS then s[1..] else s;
    if digits == [] then None
    else
      match Decimal(digits)
      case None => None
      case Some(v) => if v < 0x1_0000 then Some(v) else None
  }

  function PrintNat(n: nat): (s: Bytes)
    ensures s != [] && forall i :: 0 <= i < |s| ==> 0x30 <= s[i] <= 0x39
  {
    if n < 10 then [0x30 + n] else PrintNat(n / 10) + [0x30 + n % 10]
  }

  lemma {:induction false} DecimalPrint(n: nat)
    ensures Decimal(PrintNat(n)) == Some(n)
  {
    var s := PrintNat(n);
    if n < 10 {
      assert s[..0] == [];
    } else {
      assert s[..|s| - 1] == PrintNat(n / 10);
      DecimalPrint(n / 10);
    }
  }

  function Zeros(k: nat): (z: Bytes)
    ensures |z| == k && forall i :: 0 <= i < k ==> z[i] == 0x30
  {
    if k == 0 then [] else Zeros(k - 1) + [0x30]
  }

  lemma {:induction false} LeadingZeros(k: nat, t: Bytes)
    requires t != []
    ensures Decimal(Zeros(k) + t) == Decimal(t)
    decreases k + |t|
  {
    var n := |t| - 1;
    assert (Zeros(k) + t)[..k + n] == Zeros(k) + t[..n];
    if n > 0 {
      LeadingZeros(k, t[..n]);
    } else {
      assert Zeros(k) + t[..n] == Zeros(k);
      ZerosAreNothing(k);
    }
  }

  lemma {:induction false} ZerosAreNothing(k: nat)
    ensures Decimal(Zeros(k)) == Some(0)
  {
    if k > 0 {
      ZerosAreNothing(k - 1);
      assert Zeros(k)[..k - 1] == Zeros(k - 1);
    }
  }

  lemma AppendDigit(k: nat, v: nat, d: nat)
    requires d < 10
    ensures Zeros(k) + PrintNat(v) + [0x30 + d]
            == if v == 0 then Zeros(k + 1) + PrintNat(d) else Zeros(k) + PrintNat(10 * v + d)
  {
    if v == 0 {
      assert PrintNat(0) == [0x30] && PrintNat(d) == [0x30 + d];
    } else {
      assert PrintNat(10 * v + d) == PrintNat(v) + [0x30 + d];
    }
  }

  /** Digits are read exactly as the number they print, behind any number of zeros. */
  lemma {:induction false} DecimalOnly(s: Bytes) returns (k: nat)
    requires s != [] && Decimal(s).Some?
    ensures s == Zeros(k) + PrintNat(Decimal(s).value)
    decreases |s|
  {
    var n := |s| - 1;
    var v, d := Decimal(s[..n]).value, s[n] - 0x30;
    assert s == s[..n] + [0x30 + d];
    if n == 0 {
      k := 0;
    } else {
      k := DecimalOnly(s[..n]);
      AppendDigit(k, v, d);
      k := if v == 0 then k + 1 else k;
    }
  }

  /** A port is read exactly from its decimal digits, behind any number of zeros and one plus sign, below 2^16. */
  lemma PortExactly(s: Bytes, v: nat)
    ensures ParseU16(s) == Some(v) <==>
              v < 65536 && exists k :: k >= 0 && (s == Zeros(k) + PrintNat(v) || s == [0x2b] + (Zeros(k) + PrintNat(v)))
  {
    if ParseU16(s) == Some(v) {
      if s[0] == PLUS {
        var k := DecimalOnly(s[1..]);
        assert s == [0x2b] + s[1..];
      } else {
        var k := DecimalOnly(s);
      }
    }
    if k :| k >= 0 && (s == Zeros(k) + PrintNat(v) || s == [0x2b] + (Zeros(k) + PrintNat(v))) {
      PortPrinted(Zeros(k) + PrintNat(v), k, v);
    }
  }

  lemma PortPrinted(digits: Bytes, k: nat, v: nat)
    requires digits == Zeros(k) + PrintNat(v)
    ensures v < 65536 ==> ParseU16(digits) == ParseU16([0x2b] + digits) == Some(v)
  {
    LeadingZeros(k, PrintNat(v));
    DecimalPrint(v);
    assert digits[0] != PLUS;
    SignIgnored(digits);
  }

  lemma SignIgnored(digits: Bytes)
    requires digits != [] && digits[0] != PLUS
    ensures ParseU16([0x2b] + digits) == ParseU16(digits)
  {
    assert ([0x2b] + digits)[1..] == digits;
  }

  // ----- the URL

  datatype Upstream = Upstream(addr: Bytes, auth: Option<(Bytes, Bytes)>)

  datatype UpstreamError = BadScheme | BadCredentials | BadHostPort

  function CheckHostPort(hostport: Bytes, auth: Option<(Bytes, Bytes)>): Result<Upstream, UpstreamError> {
    match RSplitOnce(hostport, COLON)
    case None => Err(BadHostPort)
    case Some((host, port)) => if host == [] || ParseU16(port).None? then Err(BadHostPort) else Ok(Upstream(hostport, auth))
  }

  function ParseUpstream(s: Bytes): Result<Upstream, UpstreamError> {
    if !(SCHEME <= s) then Err(BadScheme)
    else
      match RSplitOnce(s[|SCHEME|..], AT)
      case None => CheckHostPort(s[|SCHEME|..], None)
      case Some((a, h)) =>
        match SplitOnce(a, COLON)
        case None => Err(BadCredentials)
        case Some((u, p)) => CheckHostPort(h, Some((Text(u), Text(p))))
  }

  /** host:port with a nonempty host. */
  ghost predicate IsHostPort(addr: Bytes) {
    exists host: Bytes, port: Bytes ::
      addr == host + [COLON] + port && host != [] && COLON !in port && ParseU16(port).Some?
  }

  /** `s` writes the upstream `u`, with credential halves written `user` and `pass`. */
  ghost predicate Spells(s: Bytes, u: Upstream, user: Bytes, pass: Bytes) {
    && IsHostPort(u.addr) && AT !in u.addr
    && match u.auth
       case None => s == SCHEME + u.addr
       case Some((x, y)) =>
         && COLON !in user && Text(user) == x && Text(pass) == y
         && s == SCHEME + (user + [COLON] + pass + [AT] + u.addr)
  }

  lemma HostPortExact(addr: Bytes, auth: Option<(Bytes, Bytes)>)
    ensures CheckHostPort(addr, auth).Ok? <==> IsHostPort(addr)
  {
    if IsHostPort(addr) {
      var host: Bytes, port: Bytes :|
        addr == host + [COLON] + port && host != [] && COLON !in port && ParseU16(port).Some?;
      var split := RSplitOnce(addr, COLON).value;
      RSplitUnique(host, port, split.0, split.1, COLON);
    }
  }

  lemma ParsedPlain(s: Bytes, u: Upstream)
    requires SCHEME <= s && RSplitOnce(s[|SCHEME|..], AT).None? && ParseUpstream(s) == Ok(u)
    ensures Spells(s, u, [], [])
  {
    HostPortExact(u.addr, u.auth);
    assert s == SCHEME + s[|SCHEME|..];
  }

  lemma ParsedLogin(s: Bytes, u: Upstream) returns (user: Bytes, pass: Bytes)
    requires SCHEME <= s && RSplitOnce(s[|SCHEME|..], AT).Some? && ParseUpstream(s) == Ok(u)
    ensures Spells(s, u, user, pass)
  {
    HostPortExact(u.addr, u.auth);
    var rest := s[|SCHEME|..];
    var (a, h) := RSplitOnce(rest, AT).value;
    var halves := SplitOnce(a, COLON).value;
    user, pass := halves.0, halves.1;
    assert s == SCHEME + rest;
    assert rest == user + [COLON] + pass + [AT] + u.addr;
  }

  /** The parser accepts exactly the URLs of the grammar and returns exactly the upstream they spell. */
  lemma ParseExactly(s: Bytes, u: Upstream)
    ensures ParseUpstream(s) == Ok(u) <==> exists user, pass :: Spells(s, u, user, pass)
  {
    if ParseUpstream(s) == Ok(u) {
      if RSplitOnce(s[|SCHEME|..], AT).None? {
        ParsedPlain(s, u);
      } else {
        var user, pass := ParsedLogin(s, u);
      }
    }
    if user, pass :| Spells(s, u, user, pass) {
      SpelledParses(s, u, user, pass);
    }
  }

  /** A URL is refused for its scheme, for credentials without a colon before the last "@", or for what is left. */
  lemma RefusedExactly(s: Bytes)
    ensures ParseUpstream(s) == Err(BadScheme) <==> !(SCHEME <= s)
    ensures ParseUpstream(s) == Err(BadCredentials) <==>
              exists a: Bytes, h: Bytes :: s == SCHEME + (a + [AT] + h) && AT !in h && COLON !in a
    ensures forall i :: 0 <= i < |SCHEME| ==> SCHEME[i] == "socks5://"[i] as int
  {
    if SCHEME <= s {
      var rest := s[|SCHEME|..];
      assert s == SCHEME + rest;
      if a: Bytes, h: Bytes :| s == SCHEME + (a + [AT] + h) && AT !in h && COLON !in a {
        assert rest == a + [AT] + h;
        var split := RSplitOnce(rest, AT).value;
        RSplitUnique(a, h, split.0, split.1, AT);
      }
    }
  }

  lemma SpelledParses(s: Bytes, u: Upstream, user: Bytes, pass: Bytes)
    requires Spells(s, u, user, pass)
    ensures ParseUpstream(s) == Ok(u)
  {
    HostPortExact(u.addr, u.auth);
    var rest := s[|SCHEME|..];
    if u.auth.Some? {
      var a := user + [COLON] + pass;
      assert rest == a + [AT] + u.addr;
      var split := RSplitOnce(rest, AT).value;
      RSplitUnique(a, u.addr, split.0, split.1, AT);
      var halves := SplitOnce(a, COLON).value;
      SplitUnique(user, pass, halves.0, halves.1, COLON);
    } else {
      assert rest == u.addr;
    }
  }

  lemma PortParses(port: nat)
    requires port < 0x1_0000
    ensures ParseU16(PrintNat(port)) == Some(port)
    ensures COLON !in PrintNat(port) && AT !in PrintNat(port)
  {
    DecimalPrint(port);
    assert PrintNat(port)[0] != PLUS;
  }

  /** The URL of a proxy with escaped credentials: the user half escapes the colon besides the percent sign. */
  function Print(user: Bytes, pass: Bytes, addr: Bytes, style: Style, passStyle: Style): Bytes {
    SCHEME + (Encode(user, style) + [COLON] + Encode(pass, passStyle) + [AT] + addr)
  }

  lemma PrintedAddress(host: Bytes, port: nat)
    requires host != [] && AT !in host && port < 0x1_0000
    ensures var addr := host + [COLON] + PrintNat(port); IsHostPort(addr) && AT !in addr
  {
    PortParses(port);
    assert host + [COLON] + PrintNat(port) == host + [COLON] + PrintNat(port);
  }

  /** What comes back from a printed URL: the address, and each half as the text of its bytes. */
  lemma PrintParses(user: Bytes, pass: Bytes, addr: Bytes, style: Style, passStyle: Style)
    requires style.Valid() && passStyle.Valid() && !style.literal(COLON) && IsHostPort(addr) && AT !in addr
    ensures ParseUpstream(Print(user, pass, addr, style, passStyle)) == Ok(Upstream(addr, Some((Lossy(user), Lossy(pass)))))
  {
    DecodeEncode(user, style);
    DecodeEncode(pass, passStyle);
    EncodeAvoids(user, style, COLON);
    var u := Upstream(addr, Some((Lossy(user), Lossy(pass))));
    SpelledParses(Print(user, pass, addr, style, passStyle), u, Encode(user, style), Encode(pass, passStyle));
  }

  /** An upstream survives being printed and parsed exactly if its credentials are well-formed UTF-8; one without
      credentials always does. Nothing but the percent sign, and the colon in the user half, needs escaping. */
  lemma UpstreamRoundTrip(user: Bytes, pass: Bytes, host: Bytes, port: nat, style: Style, passStyle: Style)
    requires style.Valid() && passStyle.Valid() && !style.literal(COLON)
    requires host != [] && AT !in host && port < 0x1_0000
    ensures var addr := host + [COLON] + PrintNat(port);
            && ParseUpstream(SCHEME + addr) == Ok(Upstream(addr, None))
            && (ParseUpstream(Print(user, pass, addr, style, passStyle)) == Ok(Upstream(addr, Some((user, pass))))
                <==> ValidUtf8(user) && ValidUtf8(pass))
  {
    var addr := host + [COLON] + PrintNat(port);
    PrintedAddress(host, port);
    SpelledParses(SCHEME + addr, Upstream(addr, None), [], []);
    PrintParses(user, pass, addr, style, passStyle);
    LossyKeepsIff(user);
    LossyKeepsIff(pass);
  }

  /** Credentials that are no text do not survive, and grow. */
  lemma StrayCredentials(host: Bytes, port: nat, style: Style)
    requires style.Valid() && !style.literal(COLON) && host != [] && AT !in host && port < 0x1_0000
    ensures var addr, stray := host + [COLON] + PrintNat(port), REPLACEMENT;
            ParseUpstream(Print([0xff], [0xff], addr, style, style)) == Ok(Upstream(addr, Some((stray, stray))))
  {
    PrintedAddress(host, port);
    PrintParses([0xff], [0xff], host + [COLON] + PrintNat(port), style, style);
    StrayByteReplaced(style);
    DecodeEncode([0xff], style);
  }

  /** Whatever the URL, the credentials it yields are text. */
  lemma CredentialsAreText(s: Bytes)
    requires ParseUpstream(s).Ok? && ParseUpstream(s).value.auth.Some?
    ensures var (user, pass) := ParseUpstream(s).value.auth.value; ValidUtf8(user) && ValidUtf8(pass)
  {
    var (a, h) := RSplitOnce(s[|SCHEME|..], AT).value;
    var (u, p) := SplitOnce(a, COLON).value;
    LossyValid(Decode(u));
    LossyValid(Decode(p));
  }
}
