/**
 * The two library string transforms that token derivation relies on:
 * Qt's `QByteArray::toBase64` with the URL and filename safe alphabet of
 * RFC 4648, section 5 (trailing '=' padding kept, as no omit option is
 * passed), and `QString::toUpper`, restricted here to ASCII letters.
 */
module Encoding {

  newtype byte = x: int | 0 <= x < 256

  /** `static_cast<uint8_t>` of a character: its code, truncated to 8 bits. */
  function ByteOf(c: char): (b: byte)
    ensures (b as int - c as int) % 256 == 0
    ensures c as int < 256 ==> b as int == c as int
  {
    (c as int % 256) as byte
  }

  /** An ASCII character converts to its own code. */
  lemma ByteOfAscii(c: char)
    requires c as int < 128
    ensures ByteOf(c) as int == c as int
  {
  }

  // ---------------------------------------------------------------------
  // Base64url (RFC 4648, section 5)
  // ---------------------------------------------------------------------

  predicate IsUrlDigit(c: char)
  {
    'A' <= c <= 'Z' || 'a' <= c <= 'z' || '0' <= c <= '9' || c == '-' || c == '_'
  }

  predicate IsAlphanumeric(c: char)
  {
    'A' <= c <= 'Z' || 'a' <= c <= 'z' || '0' <= c <= '9'
  }

  /** The letter of the base64url alphabet that stands for the 6-bit value `v`. */
  function UrlDigit(v: int): (c: char)
    requires 0 <= v < 64
    ensures IsUrlDigit(c)
    ensures IsAlphanumeric(c) <==> v < 62
  {
    if v < 26 then ('A' as int + v) as char
    else if v < 52 then ('a' as int + (v - 26)) as char
    else if v < 62 then ('0' as int + (v - 52)) as char
    else if v == 62 then '-'
    else '_'
  }

  /**
   * Base64url text of `b`: every 3 bytes become 4 letters, a trailing group of
   * 1 or 2 bytes becomes 2 or 3 letters followed by '=' padding up to 4.
   */
  function Base64Url(b: seq<byte>): (r: string)
    ensures |r| == 4 * ((|b| + 2) / 3)
    ensures forall i :: 0 <= i < |r| ==> IsUrlDigit(r[i]) || r[i] == '='
    decreases |b|
  {
    if |b| == 0 then []
    else if |b| == 1 then EncodeLastByte(b[0])
    else if |b| == 2 then EncodeLastTwoBytes(b[0], b[1])
    else EncodeGroup(b[0], b[1], b[2]) + Base64Url(b[3..])
  }

  /** A last group of one byte: two letters and two '=' of padding. */
  function EncodeLastByte(x: byte): (r: string)
    ensures |r| == 4 && forall i :: 0 <= i < 4 ==> IsUrlDigit(r[i]) || r[i] == '='
  {
    var X := x as int;
    [UrlDigit(X / 4), UrlDigit(X % 4 * 16), '=', '=']
  }

  /** A last group of two bytes: three letters and one '=' of padding. */
  function EncodeLastTwoBytes(x: byte, y: byte): (r: string)
    ensures |r| == 4 && forall i :: 0 <= i < 4 ==> IsUrlDigit(r[i]) || r[i] == '='
  {
    var X, Y := x as int, y as int;
    [UrlDigit(X / 4), UrlDigit(X % 4 * 16 + Y / 16), UrlDigit(Y % 16 * 4), '=']
  }

  /** The four letters of a full group of three bytes, six bits each. */
  function EncodeGroup(x: byte, y: byte, z: byte): (r: string)
    ensures |r| == 4 && forall i :: 0 <= i < 4 ==> IsUrlDigit(r[i])
  {
    var X, Y, Z := x as int, y as int, z as int;
    [UrlDigit(X / 4), UrlDigit(X % 4 * 16 + Y / 16), UrlDigit(Y % 16 * 4 + Z / 64), UrlDigit(Z % 64)]
  }

  /** The 6-bit value of a base64url letter; the inverse of `UrlDigit`. */
  function UrlDigitValue(c: char): (v: int)
    requires IsUrlDigit(c)
    ensures 0 <= v < 64 && UrlDigit(v) == c
    ensures forall w :: 0 <= w < 64 && UrlDigit(w) == c ==> w == v
  {
    if 'A' <= c <= 'Z' then c as int - 'A' as int
    else if 'a' <= c <= 'z' then c as int - 'a' as int + 26
    else if '0' <= c <= '9' then c as int - '0' as int + 52
    else if c == '-' then 62
    else 63
  }

  /** The first byte of a group: 6 bits of the first letter, 2 of the second. */
  function FirstByte(a: int, b: int): byte
    requires 0 <= a < 64 && 0 <= b < 64
  {
    (a * 4 + b / 16) as byte
  }

  /** The second byte of a group: 4 bits of the second letter, 4 of the third. */
  function SecondByte(b: int, c: int): byte
    requires 0 <= b < 64 && 0 <= c < 64
  {
    (b % 16 * 16 + c / 4) as byte
  }

  /** The third byte of a group: 2 bits of the third letter, 6 of the fourth. */
  function ThirdByte(c: int, d: int): byte
    requires 0 <= c < 64 && 0 <= d < 64
  {
    (c % 4 * 64 + d) as byte
  }

  /** Reassembles the three bytes a full group of four letters stands for. */
  function DecodeGroup(c0: char, c1: char, c2: char, c3: char): seq<byte>
    requires IsUrlDigit(c0) && IsUrlDigit(c1) && IsUrlDigit(c2) && IsUrlDigit(c3)
  {
    var a, b, c, d := UrlDigitValue(c0), UrlDigitValue(c1), UrlDigitValue(c2), UrlDigitValue(c3);
    [FirstByte(a, b), SecondByte(b, c), ThirdByte(c, d)]
  }

  /** A text whose length leaves a remainder of 1 on division by 3 ends in "==". */
  lemma {:induction false} PaddedEnd(b: seq<byte>)
    requires |b| % 3 == 1
    ensures var t := Base64Url(b); t[|t| - 2] == '=' && t[|t| - 1] == '='
    decreases |b|
  {
    if |b| > 1 {
      PaddedEnd(b[3..]);
      var g, rest := EncodeGroup(b[0], b[1], b[2]), Base64Url(b[3..]);
      assert Base64Url(b) == g + rest;
      assert (g + rest)[|g + rest| - 2] == rest[|rest| - 2];
      assert (g + rest)[|g + rest| - 1] == rest[|rest| - 1];
    }
  }

  /** The 6-bit pieces of three bytes put back together give the bytes. */
  lemma GroupArithmetic(x: int, y: int, z: int)
    requires 0 <= x < 256 && 0 <= y < 256 && 0 <= z < 256
    ensures var b, c := x % 4 * 16 + y / 16, y % 16 * 4 + z / 64;
            x / 4 * 4 + b / 16 == x && b % 16 * 16 + c / 4 == y && c % 4 * 64 + z % 64 == z
  {
    var b, c := x % 4 * 16 + y / 16, y % 16 * 4 + z / 64;
    assert b / 16 == x % 4 && b % 16 == y / 16;
    assert c / 4 == y % 16 && c % 4 == z / 64;
  }

  /** Every full group of three bytes is recovered from its four letters. */
  lemma GroupRoundTrip(x: byte, y: byte, z: byte)
    ensures var t := EncodeGroup(x, y, z);
            DecodeGroup(t[0], t[1], t[2], t[3]) == [x, y, z]
  {
    var X, Y, Z := x as int, y as int, z as int;
    var a, b, c, d := X / 4, X % 4 * 16 + Y / 16, Y % 16 * 4 + Z / 64, Z % 64;
    var t := EncodeGroup(x, y, z);
    DigitValueOf(a);
    DigitValueOf(b);
    DigitValueOf(c);
    DigitValueOf(d);
    assert UrlDigitValue(t[0]) == a && UrlDigitValue(t[1]) == b;
    assert UrlDigitValue(t[2]) == c && UrlDigitValue(t[3]) == d;
    GroupArithmetic(X, Y, Z);
  }

  /** The value of the letter that stands for `v` is `v`. */
  lemma DigitValueOf(v: int)
    requires 0 <= v < 64
    ensures UrlDigitValue(UrlDigit(v)) == v
  {
  }

  /**
   * Base64url decoding of a text made of 4-letter groups: a group whose third
   * or fourth letter is '=' ends the text with 1 or 2 bytes. Anything that is
   * not such a text decodes, from that point on, to nothing.
   */
  function Base64UrlDecode(t: string): seq<byte>
    decreases |t|
  {
    if |t| < 4 || !IsUrlDigit(t[0]) || !IsUrlDigit(t[1]) then []
    else
      var a, b := UrlDigitValue(t[0]), UrlDigitValue(t[1]);
      if t[2] == '=' then [FirstByte(a, b)]
      else if !IsUrlDigit(t[2]) then []
      else
        var c := UrlDigitValue(t[2]);
        if t[3] == '=' then [FirstByte(a, b), SecondByte(b, c)]
        else if !IsUrlDigit(t[3]) then []
        else DecodeGroup(t[0], t[1], t[2], t[3]) + Base64UrlDecode(t[4..])
  }

  /**
   * Decoding recovers every byte text from its base64url encoding, including a
   * last group of one or two bytes: the encoding loses no bits.
   */
  lemma {:induction false} Base64UrlRoundTrip(b: seq<byte>)
    ensures Base64UrlDecode(Base64Url(b)) == b
    decreases |b|
  {
    if |b| == 1 {
      OneByteRoundTrip(b[0]);
      assert b == [b[0]];
    } else if |b| == 2 {
      TwoBytesRoundTrip(b[0], b[1]);
      assert b == [b[0], b[1]];
    } else if |b| >= 3 {
      Base64UrlRoundTrip(b[3..]);
      FullGroupRoundTrip(b);
    }
  }

  /** The round trip of a text of three bytes or more follows from that of the rest after its first group. */
  lemma FullGroupRoundTrip(b: seq<byte>)
    requires |b| >= 3 && Base64UrlDecode(Base64Url(b[3..])) == b[3..]
    ensures Base64UrlDecode(Base64Url(b)) == b
  {
    var tail := b[3..];
    calc {
      Base64UrlDecode(Base64Url(b));
      { EncodeFullGroup(b); }
      Base64UrlDecode(EncodeGroup(b[0], b[1], b[2]) + Base64Url(tail));
      { DecodeAfterGroup(b[0], b[1], b[2], Base64Url(tail)); }
      [b[0], b[1], b[2]] + tail;
      { FirstThree(b); }
      b[..3] + b[3..];
      b;
    }
  }

  /** The first three bytes of a text, as a display. */
  lemma FirstThree(b: seq<byte>)
    requires |b| >= 3
    ensures [b[0], b[1], b[2]] == b[..3]
  {
  }

  /** A text of three bytes or more is written as its first group followed by the rest. */
  lemma EncodeFullGroup(b: seq<byte>)
    requires |b| >= 3
    ensures Base64Url(b) == EncodeGroup(b[0], b[1], b[2]) + Base64Url(b[3..])
  {
  }

  /** A last group of one byte comes back from its two letters and padding. */
  lemma OneByteRoundTrip(x: byte)
    ensures Base64UrlDecode(Base64Url([x])) == [x]
  {
    var X := x as int;
    GroupArithmetic(X, 0, 0);
    var t := Base64Url([x]);
    assert UrlDigitValue(t[0]) == X / 4 && UrlDigitValue(t[1]) == X % 4 * 16;
  }

  /** A last group of two bytes comes back from its three letters and padding. */
  lemma TwoBytesRoundTrip(x: byte, y: byte)
    ensures Base64UrlDecode(Base64Url([x, y])) == [x, y]
  {
    var X, Y := x as int, y as int;
    GroupArithmetic(X, Y, 0);
    var t := Base64Url([x, y]);
    assert UrlDigitValue(t[0]) == X / 4 && UrlDigitValue(t[1]) == X % 4 * 16 + Y / 16;
    assert UrlDigitValue(t[2]) == Y % 16 * 4;
  }

  /** The letters of a full group in front of a text decode to that group's bytes. */
  lemma DecodeAfterGroup(x: byte, y: byte, z: byte, rest: string)
    ensures Base64UrlDecode(EncodeGroup(x, y, z) + rest) == [x, y, z] + Base64UrlDecode(rest)
  {
    var g := EncodeGroup(x, y, z);
    var t := g + rest;
    assert t[0] == g[0] && t[1] == g[1] && t[2] == g[2] && t[3] == g[3];
    assert t[4..] == rest;
    GroupRoundTrip(x, y, z);
  }

  /** Different byte texts have different base64url encodings. */
  lemma Base64UrlInjective(b1: seq<byte>, b2: seq<byte>)
    ensures Base64Url(b1) == Base64Url(b2) ==> b1 == b2
  {
    Base64UrlRoundTrip(b1);
    Base64UrlRoundTrip(b2);
  }

  // ---------------------------------------------------------------------
  // Upper-casing (ASCII only)
  // ---------------------------------------------------------------------

  function UpperChar(c: char): char
  {
    if 'a' <= c <= 'z' then (c as int - 32) as char else c
  }

  /** Two characters that are equal, or the lower and upper case of one ASCII letter. */
  predicate SameLetter(c: char, d: char)
  {
    c == d
    || ('a' <= c <= 'z' && d as int == c as int - 32)
    || ('a' <= d <= 'z' && c as int == d as int - 32)
  }

  /** Texts that differ at most in the case of ASCII letters. */
  predicate SameIgnoringCase(s: string, t: string)
  {
    |s| == |t| && forall i :: 0 <= i < |s| ==> SameLetter(s[i], t[i])
  }

  /** `QString::toUpper` on ASCII text. */
  function ToUpper(s: string): (r: string)
    ensures SameIgnoringCase(r, s)
    ensures forall i :: 0 <= i < |r| ==> !('a' <= r[i] <= 'z')
  {
    seq(|s|, i requires 0 <= i < |s| => UpperChar(s[i]))
  }

  /** Upper-casing identifies exactly the texts that differ only in letter case. */
  lemma ToUpperIdentifiesCaseVariants(s: string, t: string)
    ensures SameIgnoringCase(s, t) <==> ToUpper(s) == ToUpper(t)
  {
    if SameIgnoringCase(s, t) {
      assert forall i :: 0 <= i < |s| ==> ToUpper(s)[i] == ToUpper(t)[i];
    }
    if ToUpper(s) == ToUpper(t) {
      assert |s| == |t|;
      forall i | 0 <= i < |s|
        ensures SameLetter(s[i], t[i])
      {
        assert UpperChar(s[i]) == ToUpper(s)[i] == ToUpper(t)[i] == UpperChar(t[i]);
      }
    }
  }

  /** Upper-casing twice is upper-casing once. */
  lemma ToUpperIdempotent(s: string)
    ensures ToUpper(ToUpper(s)) == ToUpper(s)
  {
    assert forall i :: 0 <= i < |s| ==> ToUpper(ToUpper(s))[i] == ToUpper(s)[i];
  }
}
