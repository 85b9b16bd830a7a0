/**
 * UTF-8 as defined in section 4 of RFC 3629: the check `str::from_utf8` applies to
 * the bytes of an ASCII tag before they become a Rust `String`.
 * A Dafny `char` is a Unicode scalar value, so a decoded `string` is exactly what
 * a Rust `str` can hold.
 */
module Utf8 {
  import opened Integers
  import opened Wrappers

  /** UTF8-tail = %x80-BF */
  predicate IsTail(b: u8) {
    0x80 <= b <= 0xBF
  }

  /** How many bytes the sequence opened by `lead` has; 0 when `lead` opens none. */
  function Width(lead: u8): nat {
    if lead <= 0x7F then 1
    else if 0xC2 <= lead <= 0xDF then 2
    else if 0xE0 <= lead <= 0xEF then 3
    else if 0xF0 <= lead <= 0xF4 then 4
    else 0
  }

  /**
   * The range of the byte after a multi-byte lead byte. The grammar narrows it
   * after E0 and F0 (no overlong forms), ED (no surrogates) and F4 (nothing above U+10FFFF).
   */
  function SecondLow(lead: u8): u8 {
    if lead == 0xE0 then 0xA0 else if lead == 0xF0 then 0x90 else 0x80
  }

  function SecondHigh(lead: u8): u8 {
    if lead == 0xED then 0x9F else if lead == 0xF4 then 0x8F else 0xBF
  }

  /** The shortest UTF-8 encoding of one scalar value. */
  function EncodeChar(c: char): (bytes: seq<u8>)
    ensures 1 <= |bytes| <= 4
  {
    var cp := c as int;
    if cp < 0x80 then [cp]
    else if cp < 0x800 then [0xC0 + cp / 0x40, 0x80 + cp % 0x40]
    else if cp < 0x1_0000 then [0xE0 + cp / 0x1000, 0x80 + cp / 0x40 % 0x40, 0x80 + cp % 0x40]
    else [0xF0 + cp / 0x4_0000, 0x80 + cp / 0x1000 % 0x40, 0x80 + cp / 0x40 % 0x40, 0x80 + cp % 0x40]
  }

  function Encode(s: string): (bytes: seq<u8>)
    ensures |s| <= |bytes| <= 4 * |s|
  {
    if s == [] then [] else EncodeChar(s[0]) + Encode(s[1..])
  }

  /**
   * Decodes the scalar value whose encoding begins `bytes`, and how many bytes
   * it took; None when `bytes` does not begin with a well-formed sequence.
   */
  function DecodeChar(bytes: seq<u8>): (r: Option<(char, nat)>)
    requires |bytes| > 0
    ensures r.Some? ==> 1 <= r.value.1 <= |bytes| && EncodeChar(r.value.0) == bytes[..r.value.1]
  {
    var b0 := bytes[0];
    var n := Width(b0);
    if n == 0 || |bytes| < n then None
    else if n == 1 then Some((b0 as char, 1))
    else if !(SecondLow(b0) <= bytes[1] <= SecondHigh(b0)) then None
    else if n == 2 then
      EncodeScalar2(b0, bytes[1]);
      Some((Scalar2(b0, bytes[1]) as char, 2))
    else if !IsTail(bytes[2]) then None
    else if n == 3 then
      EncodeScalar3(b0, bytes[1], bytes[2]);
      Some((Scalar3(b0, bytes[1], bytes[2]) as char, 3))
    else if !IsTail(bytes[3]) then None
    else
      EncodeScalar4(b0, bytes[1], bytes[2], bytes[3]);
      Some((Scalar4(b0, bytes[1], bytes[2], bytes[3]) as char, 4))
  }

  /** The code point a two-, three- or four-byte sequence carries: the payload bits of each byte. */
  function Scalar2(b0: u8, b1: u8): int {
    (b0 as int - 0xC0) * 0x40 + (b1 as int - 0x80)
  }

  function Scalar3(b0: u8, b1: u8, b2: u8): int {
    (b0 as int - 0xE0) * 0x1000 + (b1 as int - 0x80) * 0x40 + (b2 as int - 0x80)
  }

  function Scalar4(b0: u8, b1: u8, b2: u8, b3: u8): int {
    (b0 as int - 0xF0) * 0x4_0000 + (b1 as int - 0x80) * 0x1000 + (b2 as int - 0x80) * 0x40 + (b3 as int - 0x80)
  }

  /**
   * `str::from_utf8`: the text the bytes encode, or None when they are not
   * well-formed UTF-8. Accepted bytes are exactly the encoding of the result.
   */
  function Decode(bytes: seq<u8>): (r: Option<string>)
    ensures r.Some? ==> Encode(r.value) == bytes
    decreases |bytes|
  {
    if bytes == [] then Some([])
    else
      match DecodeChar(bytes)
      case None => None
      case Some((c, n)) =>
        match Decode(bytes[n..])
        case None => None
        case Some(rest) => Some([c] + rest)
  }

  predicate IsValid(bytes: seq<u8>) {
    Decode(bytes).Some?
  }

  /** A code point split into 6-bit groups: `hi` above, `lo` the low six bits. */
  lemma SplitLow6(cp: int, hi: int, lo: int)
    requires 0 <= lo < 0x40 && cp == hi * 0x40 + lo
    ensures cp / 0x40 == hi && cp % 0x40 == lo
  {
  }

  lemma EncodeScalar2(b0: u8, b1: u8)
    requires 0xC2 <= b0 <= 0xDF && IsTail(b1)
    ensures 0x80 <= Scalar2(b0, b1) < 0x800
    ensures EncodeChar(Scalar2(b0, b1) as char) == [b0, b1]
  {
    SplitLow6(Scalar2(b0, b1), b0 - 0xC0, b1 - 0x80);
  }

  lemma EncodeScalar3(b0: u8, b1: u8, b2: u8)
    requires 0xE0 <= b0 <= 0xEF && SecondLow(b0) <= b1 <= SecondHigh(b0) && IsTail(b2)
    ensures 0x800 <= Scalar3(b0, b1, b2) < 0xD800 || 0xE000 <= Scalar3(b0, b1, b2) < 0x1_0000
    ensures EncodeChar(Scalar3(b0, b1, b2) as char) == [b0, b1, b2]
  {
    var cp := Scalar3(b0, b1, b2);
    var top := (b0 - 0xE0) * 0x40 + (b1 - 0x80);
    SplitLow6(cp, top, b2 - 0x80);
    SplitLow6(top, b0 - 0xE0, b1 - 0x80);
    assert cp / 0x1000 == b0 - 0xE0;
  }

  lemma EncodeScalar4(b0: u8, b1: u8, b2: u8, b3: u8)
    requires 0xF0 <= b0 <= 0xF4 && SecondLow(b0) <= b1 <= SecondHigh(b0) && IsTail(b2) && IsTail(b3)
    ensures 0x1_0000 <= Scalar4(b0, b1, b2, b3) < 0x11_0000
    ensures EncodeChar(Scalar4(b0, b1, b2, b3) as char) == [b0, b1, b2, b3]
  {
    var cp := Scalar4(b0, b1, b2, b3);
    var top := (b0 - 0xF0) * 0x40 + (b1 - 0x80);
    var mid := top * 0x40 + (b2 - 0x80);
    SplitLow6(cp, mid, b3 - 0x80);
    SplitLow6(mid, top, b2 - 0x80);
    SplitLow6(top, b0 - 0xF0, b1 - 0x80);
    assert cp / 0x1000 == top;
    assert cp / 0x4_0000 == b0 - 0xF0;
  }

  /** Decoding the first character of an encoding gives that character back. */
  lemma DecodeCharOfEncoding(c: char, rest: seq<u8>)
    ensures DecodeChar(EncodeChar(c) + rest) == Some((c, |EncodeChar(c)|))
  {
    var cp := c as int;
    var e := EncodeChar(c);
    assert (e + rest)[..|e|] == e;
    if cp < 0x80 {
    } else if cp < 0x800 {
      SplitLow6(cp, cp / 0x40, cp % 0x40);
      assert Scalar2(e[0], e[1]) == cp;
    } else if cp < 0x1_0000 {
      var top := cp / 0x40;
      SplitLow6(cp, top, cp % 0x40);
      SplitLow6(top, top / 0x40, top % 0x40);
      assert cp / 0x1000 == top / 0x40;
      assert Scalar3(e[0], e[1], e[2]) == cp;
    } else {
      var mid := cp / 0x40;
      var top := mid / 0x40;
      SplitLow6(cp, mid, cp % 0x40);
      SplitLow6(mid, top, mid % 0x40);
      SplitLow6(top, top / 0x40, top % 0x40);
      assert cp / 0x1000 == top;
      assert cp / 0x4_0000 == top / 0x40;
      assert Scalar4(e[0], e[1], e[2], e[3]) == cp;
    }
  }

  /** Every string survives encoding and decoding: the encoder only produces valid UTF-8. */
  lemma {:induction false} DecodeEncode(s: string)
    ensures Decode(Encode(s)) == Some(s)
  {
    if s != [] {
      var e := EncodeChar(s[0]);
      DecodeCharOfEncoding(s[0], Encode(s[1..]));
      assert (e + Encode(s[1..]))[|e|..] == Encode(s[1..]);
      DecodeEncode(s[1..]);
      assert [s[0]] + s[1..] == s;
    }
  }
}
