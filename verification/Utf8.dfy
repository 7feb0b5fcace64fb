/** UTF-8 as RFC 3629 section 3 defines it: one to four bytes for each Unicode scalar value. */
module Utf8 {
  import opened Options

  type Byte = b: int | 0 <= b < 256

  function EncodeChar(c: char): seq<Byte> {
    var n := c as int;
    if n < 0x80 then [n]
    else if n < 0x800 then [0xC0 + n / 64, 0x80 + n % 64]
    else if n < 0x10000 then [0xE0 + n / 4096, 0x80 + n / 64 % 64, 0x80 + n % 64]
    else [0xF0 + n / 262144, 0x80 + n / 4096 % 64, 0x80 + n / 64 % 64, 0x80 + n % 64]
  }

  function EncodeUtf8(s: string): seq<Byte> {
    if s == "" then [] else EncodeChar(s[0]) + EncodeUtf8(s[1..])
  }

  // ----- decoding -----

  predicate IsScalarValue(n: int) {
    0 <= n < 0xD800 || 0xE000 <= n < 0x110000
  }

  predicate IsTail(b: Byte) {
    0x80 <= b < 0xC0
  }

  /** One character off the front and its length; a sequence that is malformed or longer than it
      has to be is refused. */
  function DecodeChar(s: seq<Byte>): Option<(char, nat)> {
    if s == [] then None
    else if s[0] < 0x80 then Some((s[0] as char, 1))
    else if 0xC0 <= s[0] < 0xE0 && |s| >= 2 && IsTail(s[1]) then
      Scalar(64 * Above(s[0], 0xC0) + Above(s[1], 0x80), 0x80, 2)
    else if 0xE0 <= s[0] < 0xF0 && |s| >= 3 && IsTail(s[1]) && IsTail(s[2]) then
      Scalar(4096 * Above(s[0], 0xE0) + 64 * Above(s[1], 0x80) + Above(s[2], 0x80), 0x800, 3)
    else if 0xF0 <= s[0] && |s| >= 4 && IsTail(s[1]) && IsTail(s[2]) && IsTail(s[3]) then
      Scalar(262144 * Above(s[0], 0xF0) + 4096 * Above(s[1], 0x80) + 64 * Above(s[2], 0x80) + Above(s[3], 0x80), 0x10000, 4)
    else None
  }

  function Above(b: Byte, base: int): int { b - base }

  function Scalar(n: int, least: int, length: nat): Option<(char, nat)> {
    if IsScalarValue(n) && n >= least then Some((n as char, length)) else None
  }

  lemma {:induction false} DecodedIsThere(s: seq<Byte>)
    ensures DecodeChar(s).Some? ==> 0 < DecodeChar(s).value.1 <= |s|
  {
  }

  function DecodeUtf8(s: seq<Byte>): Option<string>
    decreases |s|
  {
    if s == [] then Some("")
    else
      match DecodeChar(s)
      case None => None
      case Some((c, n)) =>
        DecodedIsThere(s);
        match DecodeUtf8(s[n..])
        case None => None
        case Some(rest) => Some([c] + rest)
  }

  // ----- the two are inverse -----

  lemma {:induction false} DecodeEncodedChar(c: char, s: seq<Byte>)
    ensures DecodeChar(EncodeChar(c) + s) == Some((c, |EncodeChar(c)|))
  {
    var n := c as int;
    var t := EncodeChar(c) + s;
    SplitsBack(n);
    if n < 0x80 {
      assert t[0] == n;
    } else if n < 0x800 {
      assert t[0] == 0xC0 + n / 64 && t[1] == 0x80 + n % 64;
    } else if n < 0x10000 {
      assert t[0] == 0xE0 + n / 4096 && t[1] == 0x80 + n / 64 % 64 && t[2] == 0x80 + n % 64;
    } else {
      assert t[0] == 0xF0 + n / 262144 && t[1] == 0x80 + n / 4096 % 64 && t[2] == 0x80 + n / 64 % 64
          && t[3] == 0x80 + n % 64;
    }
  }

  lemma {:induction false} SplitsBack(n: int)
    requires 0 <= n < 0x110000
    ensures 64 * (n / 64) + n % 64 == n
    ensures 4096 * (n / 4096) + 64 * (n / 64 % 64) + n % 64 == n
    ensures 262144 * (n / 262144) + 4096 * (n / 4096 % 64) + 64 * (n / 64 % 64) + n % 64 == n
  {
    assert n / 4096 == n / 64 / 64;
    assert n / 262144 == n / 4096 / 64;
  }

  lemma {:induction false} DecodeOfEncode(s: string)
    ensures DecodeUtf8(EncodeUtf8(s)) == Some(s)
    decreases |s|
  {
    if s != "" {
      var head, rest := EncodeChar(s[0]), EncodeUtf8(s[1..]);
      DecodeEncodedChar(s[0], rest);
      assert (head + rest)[|head|..] == rest;
      DecodeOfEncode(s[1..]);
      assert [s[0]] + s[1..] == s;
    }
  }

  /** What is decoded as a character is its encoding. */
  lemma {:induction false} DecodedIsEncoded(s: seq<Byte>)
    ensures DecodeChar(s).Some? ==> DecodeChar(s).value.1 <= |s| && s[..DecodeChar(s).value.1] == EncodeChar(DecodeChar(s).value.0)
  {
    if DecodeChar(s).Some? {
      if s[0] < 0x80 {
      } else if s[0] < 0xE0 {
        TwoDigits(s[0] - 0xC0, s[1] - 0x80);
      } else if s[0] < 0xF0 {
        ThreeDigits(s[0] - 0xE0, s[1] - 0x80, s[2] - 0x80);
      } else {
        FourDigits(s[0] - 0xF0, s[1] - 0x80, s[2] - 0x80, s[3] - 0x80);
      }
    }
  }

  lemma {:induction false} TwoDigits(a: int, b: int)
    requires 0 <= b < 64
    ensures (64 * a + b) / 64 == a && (64 * a + b) % 64 == b
  {
  }

  lemma {:induction false} ThreeDigits(a: int, b: int, c: int)
    requires 0 <= b < 64 && 0 <= c < 64
    ensures
      var n := 4096 * a + 64 * b + c;
      n / 4096 == a && n / 64 % 64 == b && n % 64 == c
  {
    TwoDigits(64 * a + b, c);
    TwoDigits(a, b);
    assert 4096 * a + 64 * b + c == 64 * (64 * a + b) + c;
  }

  lemma {:induction false} FourDigits(a: int, b: int, c: int, d: int)
    requires 0 <= b < 64 && 0 <= c < 64 && 0 <= d < 64
    ensures
      var n := 262144 * a + 4096 * b + 64 * c + d;
      n / 262144 == a && n / 4096 % 64 == b && n / 64 % 64 == c && n % 64 == d
  {
    var m := 4096 * a + 64 * b + c;
    ThreeDigits(a, b, c);
    TwoDigits(m, d);
    assert 262144 * a + 4096 * b + 64 * c + d == 64 * m + d;
    var n := 64 * m + d;
    assert n / 4096 == n / 64 / 64 && n / 262144 == n / 64 / 4096;
  }

  /** Exactly the encodings are decoded. */
  lemma {:induction false} DecodesExactlyEncodings(s: seq<Byte>, text: string)
    ensures DecodeUtf8(s) == Some(text) <==> s == EncodeUtf8(text)
  {
    DecodeOfEncode(text);
    if DecodeUtf8(s) == Some(text) {
      DecodedIsEncoding(s);
    }
  }

  lemma {:induction false} DecodedIsEncoding(s: seq<Byte>)
    ensures DecodeUtf8(s).Some? ==> s == EncodeUtf8(DecodeUtf8(s).value)
    decreases |s|
  {
    if s != [] && DecodeChar(s).Some? {
      DecodedIsThere(s);
      DecodedIsEncoding(s[DecodeChar(s).value.1..]);
      if DecodeUtf8(s).Some? {
        DecodedGoesOn(s, DecodeChar(s).value.0, DecodeChar(s).value.1, DecodeUtf8(s[DecodeChar(s).value.1..]).value);
      }
    }
  }

  lemma {:induction false} DecodedGoesOn(s: seq<Byte>, c: char, n: nat, rest: string)
    requires DecodeChar(s) == Some((c, n)) && n <= |s| && s[n..] == EncodeUtf8(rest)
    ensures s == EncodeUtf8([c] + rest)
  {
    DecodedIsEncoded(s);
    assert ([c] + rest)[1..] == rest;
    assert s == s[..n] + s[n..];
  }
}
