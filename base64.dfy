/** The credentials of HTTP Basic authentication (section 2 of RFC 7617):
    the user-id and password joined by ':', encoded as UTF-8 and then in the
    base 64 alphabet of section 4 of RFC 4648, with '=' padding. */
module Base64 {
  import opened Wrappers

  newtype byte = x: int | 0 <= x < 256

  // ---------------------------------------------------------------------
  // UTF-8 (the JVM's `String.toByteArray()`).

  /** The one to four bytes of a code point: a lead byte with the high
      bits, then six bits per continuation byte. */
  function Utf8Char(c: char): (r: seq<byte>)
    ensures 1 <= |r| <= 4
    ensures |r| == 1 <==> c as int < 0x80
  {
    var n := c as int;
    var m1 := n / 64;
    var m2 := m1 / 64;
    var m3 := m2 / 64;
    if n < 0x80 then [n as byte]
    else if n < 0x800 then [(0xC0 + m1) as byte, (0x80 + n % 64) as byte]
    else if n < 0x1_0000 then
      [(0xE0 + m2) as byte, (0x80 + m1 % 64) as byte, (0x80 + n % 64) as byte]
    else
      [(0xF0 + m3) as byte, (0x80 + m2 % 64) as byte, (0x80 + m1 % 64) as byte, (0x80 + n % 64) as byte]
  }

  function Utf8(s: string): (r: seq<byte>)
    ensures |r| >= |s|
  {
    if s == [] then [] else Utf8Char(s[0]) + Utf8(s[1..])
  }

  /** The low six bits a continuation byte carries, if it is one. */
  function Continuation(b: byte): Option<int> {
    if 0x80 <= b < 0xC0 then Some(b as int - 0x80) else None
  }

  /** The code point as a character, if it is a scalar value. */
  function ToChar(n: int): Option<char> {
    if 0 <= n < 0xD800 || 0xE000 <= n < 0x11_0000 then Some(n as char) else None
  }

  /** Reads back the code point the first bytes encode, with the number of
      bytes it took. */
  function DecodeUtf8Char(bs: seq<byte>): Option<(char, nat)> {
    if bs == [] then None
    else
      var b0 := bs[0] as int;
      if b0 < 0x80 then
        match ToChar(b0) case Some(c) => Some((c, 1)) case None => None
      else if 0xC0 <= b0 < 0xE0 && |bs| >= 2 then
        match Continuation(bs[1])
        case None => None
        case Some(x1) =>
          match ToChar((b0 - 0xC0) * 64 + x1) case Some(c) => Some((c, 2)) case None => None
      else if 0xE0 <= b0 < 0xF0 && |bs| >= 3 then
        match (Continuation(bs[1]), Continuation(bs[2]))
        case (Some(x1), Some(x2)) =>
          (match ToChar(((b0 - 0xE0) * 64 + x1) * 64 + x2)
           case Some(c) => Some((c, 3)) case None => None)
        case _ => None
      else if 0xF0 <= b0 < 0xF8 && |bs| >= 4 then
        match (Continuation(bs[1]), Continuation(bs[2]), Continuation(bs[3]))
        case (Some(x1), Some(x2), Some(x3)) =>
          (match ToChar((((b0 - 0xF0) * 64 + x1) * 64 + x2) * 64 + x3)
           case Some(c) => Some((c, 4)) case None => None)
        case _ => None
      else None
  }

  function DecodeUtf8(bs: seq<byte>): Option<string>
    decreases |bs|
  {
    if bs == [] then Some([])
    else
      match DecodeUtf8Char(bs)
      case None => None
      case Some((c, k)) =>
        if 0 < k <= |bs| then
          match DecodeUtf8(bs[k..])
          case None => None
          case Some(rest) => Some([c] + rest)
        else None
  }

  lemma Utf8CharTwo(c: char)
    requires 0x80 <= c as int < 0x800
    ensures DecodeUtf8Char(Utf8Char(c)) == Some((c, 2))
  {
    var n := c as int;
    assert n / 64 * 64 + n % 64 == n;
  }

  lemma Utf8CharThree(c: char)
    requires 0x800 <= c as int < 0x1_0000
    ensures DecodeUtf8Char(Utf8Char(c)) == Some((c, 3))
  {
    var n := c as int;
    var m1 := n / 64;
    assert m1 * 64 + n % 64 == n;
    assert m1 / 64 * 64 + m1 % 64 == m1;
  }

  lemma Utf8CharFour(c: char)
    requires 0x1_0000 <= c as int
    ensures DecodeUtf8Char(Utf8Char(c)) == Some((c, 4))
  {
    var n := c as int;
    var m1 := n / 64;
    var m2 := m1 / 64;
    assert m1 * 64 + n % 64 == n;
    assert m2 * 64 + m1 % 64 == m1;
    assert m2 / 64 * 64 + m2 % 64 == m2;
  }

  /** Each character's bytes read back as the character. */
  lemma Utf8CharRoundTrip(c: char)
    ensures DecodeUtf8Char(Utf8Char(c)) == Some((c, |Utf8Char(c)|))
  {
    var n := c as int;
    if n < 0x80 {
    } else if n < 0x800 {
      Utf8CharTwo(c);
    } else if n < 0x1_0000 {
      Utf8CharThree(c);
    } else {
      Utf8CharFour(c);
    }
  }

  /** Decoding only looks at the bytes of the first character. */
  lemma DecodeUtf8CharPrefix(c: char, rest: seq<byte>)
    ensures DecodeUtf8Char(Utf8Char(c) + rest) == DecodeUtf8Char(Utf8Char(c))
  {
    var u := Utf8Char(c);
    assert (u + rest)[..|u|] == u;
  }

  /** UTF-8 encoding is lossless: the bytes read back as the text. */
  lemma {:induction false} Utf8RoundTrip(s: string)
    ensures DecodeUtf8(Utf8(s)) == Some(s)
  {
    if s != [] {
      var u := Utf8Char(s[0]);
      var rest := Utf8(s[1..]);
      Utf8CharRoundTrip(s[0]);
      DecodeUtf8CharPrefix(s[0], rest);
      assert (u + rest)[|u|..] == rest;
      Utf8RoundTrip(s[1..]);
      assert [s[0]] + s[1..] == s;
    }
  }

  // ---------------------------------------------------------------------
  // Base 64 (section 4 of RFC 4648).

  /** The character of a 6-bit value: 'A'-'Z', 'a'-'z', '0'-'9', '+', '/'. */
  function Sextet(n: int): char
    requires 0 <= n < 64
  {
    if n < 26 then ('A' as int + n) as char
    else if n < 52 then ('a' as int + n - 26) as char
    else if n < 62 then ('0' as int + n - 52) as char
    else if n == 62 then '+'
    else '/'
  }

  /** The value of an alphabet character, if it is one. */
  function SextetValue(c: char): (r: Option<int>)
    ensures r.Some? ==> 0 <= r.value < 64 && Sextet(r.value) == c
  {
    if 'A' <= c <= 'Z' then Some(c as int - 'A' as int)
    else if 'a' <= c <= 'z' then Some(c as int - 'a' as int + 26)
    else if '0' <= c <= '9' then Some(c as int - '0' as int + 52)
    else if c == '+' then Some(62)
    else if c == '/' then Some(63)
    else None
  }

  lemma SextetRoundTrip(n: int)
    requires 0 <= n < 64
    ensures SextetValue(Sextet(n)) == Some(n)
  {
  }

  lemma DivMod4(a: int, b: int)
    requires 0 <= b < 4
    ensures (a * 4 + b) / 4 == a && (a * 4 + b) % 4 == b
  {
  }

  lemma DivMod16(a: int, b: int)
    requires 0 <= b < 16
    ensures (a * 16 + b) / 16 == a && (a * 16 + b) % 16 == b
  {
  }

  /** Three bytes as four characters. */
  function EncodeBlock(b0: byte, b1: byte, b2: byte): string {
    var n0, n1, n2 := b0 as int, b1 as int, b2 as int;
    [Sextet(n0 / 4), Sextet(n0 % 4 * 16 + n1 / 16), Sextet(n1 % 16 * 4 + n2 / 64), Sextet(n2 % 64)]
  }

  /** The last one, two or three bytes, padded with '='. */
  function EncodeTail(bs: seq<byte>): string
    requires 1 <= |bs| <= 3
  {
    if |bs| == 3 then EncodeBlock(bs[0], bs[1], bs[2])
    else if |bs| == 2 then
      var n0, n1 := bs[0] as int, bs[1] as int;
      [Sextet(n0 / 4), Sextet(n0 % 4 * 16 + n1 / 16), Sextet(n1 % 16 * 4), '=']
    else
      var n0 := bs[0] as int;
      [Sextet(n0 / 4), Sextet(n0 % 4 * 16), '=', '=']
  }

  /** `Base64.getEncoder().encodeToString(bs)` */
  function Encode(bs: seq<byte>): (r: string)
    ensures |r| == 4 * ((|bs| + 2) / 3)
  {
    if bs == [] then []
    else if |bs| <= 3 then
      assert (|bs| + 2) / 3 == 1;
      EncodeTail(bs)
    else
      assert (|bs| + 2) / 3 == 1 + (|bs| - 1) / 3;
      EncodeBlock(bs[0], bs[1], bs[2]) + Encode(bs[3..])
  }

  /** Four characters without padding as three bytes. */
  function DecodeBlock(q: string): Option<seq<byte>>
    requires |q| == 4
  {
    match (SextetValue(q[0]), SextetValue(q[1]), SextetValue(q[2]), SextetValue(q[3]))
    case (Some(v0), Some(v1), Some(v2), Some(v3)) =>
      Some([(v0 * 4 + v1 / 16) as byte, (v1 % 16 * 16 + v2 / 4) as byte, (v2 % 4 * 64 + v3) as byte])
    case _ => None
  }

  /** The last four characters, which may end in one or two '='. */
  function DecodeTail(q: string): Option<seq<byte>>
    requires |q| == 4
  {
    if q[2] == '=' && q[3] == '=' then
      match (SextetValue(q[0]), SextetValue(q[1]))
      case (Some(v0), Some(v1)) => Some([(v0 * 4 + v1 / 16) as byte])
      case _ => None
    else if q[3] == '=' then
      match (SextetValue(q[0]), SextetValue(q[1]), SextetValue(q[2]))
      case (Some(v0), Some(v1), Some(v2)) =>
        Some([(v0 * 4 + v1 / 16) as byte, (v1 % 16 * 16 + v2 / 4) as byte])
      case _ => None
    else DecodeBlock(q)
  }

  /** The inverse of Encode: None on text that no byte string encodes to
      under these rules. */
  function Decode(s: string): Option<seq<byte>> {
    if s == [] then Some([])
    else if |s| < 4 then None
    else if |s| == 4 then DecodeTail(s)
    else
      match (DecodeBlock(s[..4]), Decode(s[4..]))
      case (Some(head), Some(rest)) => Some(head + rest)
      case _ => None
  }

  lemma BlockRoundTrip(b0: byte, b1: byte, b2: byte)
    ensures DecodeBlock(EncodeBlock(b0, b1, b2)) == Some([b0, b1, b2])
  {
    var n0, n1, n2 := b0 as int, b1 as int, b2 as int;
    var s0, s1, s2, s3 := n0 / 4, n0 % 4 * 16 + n1 / 16, n1 % 16 * 4 + n2 / 64, n2 % 64;
    SextetRoundTrip(s0);
    SextetRoundTrip(s1);
    SextetRoundTrip(s2);
    SextetRoundTrip(s3);
    DivMod16(n0 % 4, n1 / 16);
    DivMod4(n1 % 16, n2 / 64);
    assert s0 * 4 + s1 / 16 == n0;
    assert s1 % 16 * 16 + s2 / 4 == n1;
    assert s2 % 4 * 64 + s3 == n2;
  }

  lemma TailTwoRoundTrip(b0: byte, b1: byte)
    ensures DecodeTail(EncodeTail([b0, b1])) == Some([b0, b1])
  {
    var n0, n1 := b0 as int, b1 as int;
    var s0, s1, s2 := n0 / 4, n0 % 4 * 16 + n1 / 16, n1 % 16 * 4;
    SextetRoundTrip(s0);
    SextetRoundTrip(s1);
    SextetRoundTrip(s2);
    DivMod16(n0 % 4, n1 / 16);
    DivMod4(n1 % 16, 0);
    assert s0 * 4 + s1 / 16 == n0;
    assert s1 % 16 * 16 + s2 / 4 == n1;
  }

  lemma TailOneRoundTrip(b0: byte)
    ensures DecodeTail(EncodeTail([b0])) == Some([b0])
  {
    var n0 := b0 as int;
    var s0, s1 := n0 / 4, n0 % 4 * 16;
    SextetRoundTrip(s0);
    SextetRoundTrip(s1);
    DivMod16(n0 % 4, 0);
    assert s0 * 4 + s1 / 16 == n0;
  }

  lemma TailRoundTrip(bs: seq<byte>)
    requires 1 <= |bs| <= 3
    ensures DecodeTail(EncodeTail(bs)) == Some(bs)
  {
    if |bs| == 3 {
      BlockRoundTrip(bs[0], bs[1], bs[2]);
      assert [bs[0], bs[1], bs[2]] == bs;
    } else if |bs| == 2 {
      TailTwoRoundTrip(bs[0], bs[1]);
      assert [bs[0], bs[1]] == bs;
    } else {
      TailOneRoundTrip(bs[0]);
      assert [bs[0]] == bs;
    }
  }

  lemma DecodeFirstBlock(q: string, rest: string, head: seq<byte>, tail: seq<byte>)
    requires |q| == 4 && rest != []
    requires DecodeBlock(q) == Some(head) && Decode(rest) == Some(tail)
    ensures Decode(q + rest) == Some(head + tail)
  {
    var s := q + rest;
    assert s[..4] == q && s[4..] == rest;
  }

  /** Base 64 is lossless: the encoding decodes to the bytes. */
  lemma {:induction false} Base64RoundTrip(bs: seq<byte>)
    ensures Decode(Encode(bs)) == Some(bs)
  {
    if bs == [] {
    } else if |bs| <= 3 {
      TailRoundTrip(bs);
    } else {
      BlockRoundTrip(bs[0], bs[1], bs[2]);
      Base64RoundTrip(bs[3..]);
      var head := bs[..3];
      assert head == [bs[0], bs[1], bs[2]];
      DecodeFirstBlock(EncodeBlock(bs[0], bs[1], bs[2]), Encode(bs[3..]), head, bs[3..]);
      assert head + bs[3..] == bs;
    }
  }

  // ---------------------------------------------------------------------
  // The Authorization header.

  /** "Basic " and the base 64 of the UTF-8 of user-id ':' password. */
  function BasicAuthorization(userId: string, password: string): (h: string)
    ensures Credentials(h) == Some(userId + ":" + password)
  {
    var text := userId + ":" + password;
    Base64RoundTrip(Utf8(text));
    Utf8RoundTrip(text);
    var h := "Basic " + Encode(Utf8(text));
    assert h[..6] == "Basic " && h[6..] == Encode(Utf8(text));
    h
  }

  /** The credentials read back from a Basic header: the text after
      "Basic ", decoded from base 64 and then from UTF-8. */
  function Credentials(header: string): Option<string> {
    if |header| >= 6 && header[..6] == "Basic " then
      match Decode(header[6..])
      case None => None
      case Some(bytes) => DecodeUtf8(bytes)
    else None
  }

  /** The header carries exactly "user-id:password". */
  lemma CredentialsRoundTrip(userId: string, password: string)
    ensures Credentials(BasicAuthorization(userId, password)) == Some(userId + ":" + password)
  {
    var text := userId + ":" + password;
    var h := BasicAuthorization(userId, password);
    assert h[..6] == "Basic " && h[6..] == Encode(Utf8(text));
    Base64RoundTrip(Utf8(text));
    Utf8RoundTrip(text);
  }

  /** Text in the ASCII range: one byte per character, its code. */
  lemma {:induction false} Utf8Ascii(s: string)
    requires forall i :: 0 <= i < |s| ==> s[i] as int < 0x80
    ensures |Utf8(s)| == |s|
    ensures forall i :: 0 <= i < |s| ==> Utf8(s)[i] as int == s[i] as int
  {
    if s != [] {
      Utf8Ascii(s[1..]);
      assert Utf8(s) == [s[0] as int as byte] + Utf8(s[1..]);
    }
  }

  lemma DefaultPasswordBytes(text: string)
    requires text == ":massa123"
    ensures Utf8(text) == [58, 109, 97, 115, 115, 97, 49, 50, 51]
  {
    Utf8Ascii(text);
  }

  lemma DefaultPasswordBlocks()
    ensures EncodeBlock(58, 109, 97) == "Om1h"
    ensures EncodeBlock(115, 115, 97) == "c3Nh"
    ensures EncodeBlock(49, 50, 51) == "MTIz"
  {
  }

  lemma EncodeFirstBlock(b0: byte, b1: byte, b2: byte, rest: seq<byte>)
    ensures Encode([b0, b1, b2] + rest) == EncodeBlock(b0, b1, b2) + Encode(rest)
  {
    var bs := [b0, b1, b2] + rest;
    if rest != [] {
      assert bs[3..] == rest;
    } else {
      assert bs == [b0, b1, b2];
    }
  }

  lemma DefaultPasswordBase64(bytes: seq<byte>)
    requires bytes == [58, 109, 97, 115, 115, 97, 49, 50, 51]
    ensures Encode(bytes) == "Om1hc3NhMTIz"
  {
    var third: seq<byte> := [49, 50, 51];
    var second: seq<byte> := [115, 115, 97] + third;
    DefaultPasswordBlocks();
    EncodeFirstBlock(49, 50, 51, []);
    assert [49, 50, 51] + [] == third;
    EncodeFirstBlock(115, 115, 97, third);
    EncodeFirstBlock(58, 109, 97, second);
    assert bytes == [58, 109, 97] + second;
    assert Encode(bytes) == "Om1h" + ("c3Nh" + ("MTIz" + ""));
  }

  lemma DefaultPasswordEncoding(text: string)
    requires text == ":massa123"
    ensures Encode(Utf8(text)) == "Om1hc3NhMTIz"
  {
    DefaultPasswordBytes(text);
    DefaultPasswordBase64(Utf8(text));
  }

  /** The default node password gives this header. */
  lemma DefaultAuthorization(password: string)
    requires password == "massa123"
    ensures BasicAuthorization("", password) == "Basic Om1hc3NhMTIz"
  {
    var text := "" + ":" + password;
    assert text == ":massa123";
    DefaultPasswordEncoding(text);
    assert "Basic " + "Om1hc3NhMTIz" == "Basic Om1hc3NhMTIz";
  }
}
