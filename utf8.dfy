/**
 * UTF-8 as Java's StandardCharsets.UTF_8 applies it (RFC 3629, section 3 and
 * the byte-sequence table of section 4), over Unicode scalar values: Dafny's
 * `char` is a scalar value, so a string here never holds a lone surrogate.
 * A byte is its unsigned bit pattern, 0 to 255.
 */
module Utf8 {

  type Byte = b: int | 0 <= b < 0x100

  /** U+FFFD, what Java's decoder puts in place of ill-formed input. */
  const Replacement: char := '�'

  predicate IsContinuation(b: Byte) { 0x80 <= b <= 0xBF }

  /** The bytes RFC 3629 assigns to one scalar value: 1 to 4, by range. */
  function EncodeChar(ch: char): (bs: seq<Byte>)
    ensures 1 <= |bs| <= 4
    ensures |bs| == 1 <==> (ch as int) < 0x80
    ensures |bs| == 2 <==> 0x80 <= (ch as int) < 0x800
    ensures |bs| == 3 <==> 0x800 <= (ch as int) < 0x10000
  {
    var cp := ch as int;
    if cp < 0x80 then [cp]
    else if cp < 0x800 then [0xC0 + cp / 0x40, 0x80 + cp % 0x40]
    else if cp < 0x10000 then [0xE0 + cp / 0x1000, 0x80 + (cp / 0x40) % 0x40, 0x80 + cp % 0x40]
    else [0xF0 + cp / 0x40000, 0x80 + (cp / 0x1000) % 0x40, 0x80 + (cp / 0x40) % 0x40, 0x80 + cp % 0x40]
  }

  /** `s.getBytes(StandardCharsets.UTF_8)`. */
  function Encode(s: string): (bs: seq<Byte>)
    ensures |s| <= |bs| <= 4 * |s|
  {
    if s == [] then [] else EncodeChar(s[0]) + Encode(s[1..])
  }

  /**
   * The length of the well-formed sequence at the head of `bs` (section 4 of
   * RFC 3629: no overlong forms, no surrogates, nothing above U+10FFFF), or
   * 0 when the head byte does not start one.
   */
  function WellFormedPrefix(bs: seq<Byte>): (n: nat)
    requires bs != []
    ensures n <= 4 && n <= |bs|
  {
    var b0 := bs[0];
    if b0 < 0x80 then 1
    else if 0xC2 <= b0 <= 0xDF then
      if 2 <= |bs| && IsContinuation(bs[1]) then 2 else 0
    else if 0xE0 <= b0 <= 0xEF then
      var lo := if b0 == 0xE0 then 0xA0 else 0x80;
      var hi := if b0 == 0xED then 0x9F else 0xBF;
      if 3 <= |bs| && lo <= bs[1] <= hi && IsContinuation(bs[2]) then 3 else 0
    else if 0xF0 <= b0 <= 0xF4 then
      var lo := if b0 == 0xF0 then 0x90 else 0x80;
      var hi := if b0 == 0xF4 then 0x8F else 0xBF;
      if 4 <= |bs| && lo <= bs[1] <= hi && IsContinuation(bs[2]) && IsContinuation(bs[3]) then 4 else 0
    else 0
  }

  /** The scalar value a well-formed head sequence stands for. */
  function DecodeHead(bs: seq<Byte>): char
    requires bs != [] && WellFormedPrefix(bs) > 0
  {
    var n := WellFormedPrefix(bs);
    var b0: int, b1: int := bs[0], if n >= 2 then bs[1] else 0;
    if n == 1 then b0 as char
    else if n == 2 then ((b0 - 0xC0) * 0x40 + (b1 - 0x80)) as char
    else if n == 3 then ((b0 - 0xE0) * 0x1000 + (b1 - 0x80) * 0x40 + (bs[2] as int - 0x80)) as char
    else ((b0 - 0xF0) * 0x40000 + (b1 - 0x80) * 0x1000 + (bs[2] as int - 0x80) * 0x40 + (bs[3] as int - 0x80)) as char
  }

  /**
   * `new String(bs, StandardCharsets.UTF_8)`: never fails; each byte that
   * does not start a well-formed sequence becomes one U+FFFD.
   */
  function Decode(bs: seq<Byte>): (s: string)
    ensures |s| <= |bs|
    decreases |bs|
  {
    if bs == [] then []
    else
      var n := WellFormedPrefix(bs);
      if n == 0 then [Replacement] + Decode(bs[1..])
      else [DecodeHead(bs)] + Decode(bs[n..])
  }

  /** The number of bytes RFC 3629 gives one scalar value. */
  function Width(ch: char): nat
  {
    if (ch as int) < 0x80 then 1
    else if (ch as int) < 0x800 then 2
    else if (ch as int) < 0x10000 then 3
    else 4
  }

  /** The number of bytes `s` occupies in UTF-8, counted character by character. */
  function Length(s: string): nat
  {
    if s == [] then 0 else Width(s[0]) + Length(s[1..])
  }

  /** The count agrees with the encoder. */
  lemma {:induction false} LengthOfEncode(s: string)
    ensures Length(s) == |Encode(s)|
  {
    if s != [] {
      LengthOfEncode(s[1..]);
    }
  }

  lemma DecodeEncode2(cp: int, rest: seq<Byte>)
    requires 0x80 <= cp < 0x800
    ensures var bs := [0xC0 + cp / 0x40, 0x80 + cp % 0x40] + rest;
            WellFormedPrefix(bs) == 2 && DecodeHead(bs) as int == cp
  {
  }

  lemma DecodeEncode3(cp: int, rest: seq<Byte>)
    requires 0x800 <= cp < 0x10000 && !(0xD800 <= cp < 0xE000)
    ensures var bs := [0xE0 + cp / 0x1000, 0x80 + (cp / 0x40) % 0x40, 0x80 + cp % 0x40] + rest;
            WellFormedPrefix(bs) == 3 && DecodeHead(bs) as int == cp
  {
    var hi, mid, lo := cp / 0x1000, (cp / 0x40) % 0x40, cp % 0x40;
    assert cp == hi * 0x1000 + mid * 0x40 + lo;
    assert hi == 0 ==> mid >= 0x20;
    assert hi == 0xD ==> mid < 0x20;
  }

  lemma DecodeEncode4(cp: int, rest: seq<Byte>)
    requires 0x10000 <= cp < 0x110000
    ensures var bs := [0xF0 + cp / 0x40000, 0x80 + (cp / 0x1000) % 0x40, 0x80 + (cp / 0x40) % 0x40, 0x80 + cp % 0x40] + rest;
            WellFormedPrefix(bs) == 4 && DecodeHead(bs) as int == cp
  {
    Digits4(cp);
  }

  /** The four base-64 digits of a supplementary scalar value, as the 4-byte form spreads them. */
  lemma Digits4(cp: int)
    requires 0x10000 <= cp < 0x110000
    ensures var top, hi, mid, lo := cp / 0x40000, (cp / 0x1000) % 0x40, (cp / 0x40) % 0x40, cp % 0x40;
            cp == top * 0x40000 + hi * 0x1000 + mid * 0x40 + lo && top <= 4
            && (top == 0 ==> hi >= 0x10) && (top == 4 ==> hi < 0x10)
  {
    var top, hi, mid, lo := cp / 0x40000, (cp / 0x1000) % 0x40, (cp / 0x40) % 0x40, cp % 0x40;
    assert cp == top * 0x40000 + hi * 0x1000 + mid * 0x40 + lo;
  }

  /** Decoding the encoding of one character, followed by anything, yields that character first. */
  lemma DecodeEncodeChar(ch: char, rest: seq<Byte>)
    ensures var bs := EncodeChar(ch) + rest;
            WellFormedPrefix(bs) == |EncodeChar(ch)| && DecodeHead(bs) == ch
  {
    var cp := ch as int;
    if cp < 0x80 {
    } else if cp < 0x800 {
      DecodeEncode2(cp, rest);
    } else if cp < 0x10000 {
      DecodeEncode3(cp, rest);
    } else {
      DecodeEncode4(cp, rest);
    }
  }

  /** The decoder inverts the encoder on every string (RFC 3629, section 3). */
  lemma {:induction false} DecodeEncode(s: string)
    ensures Decode(Encode(s)) == s
  {
    if s != [] {
      var head := EncodeChar(s[0]);
      var bs := head + Encode(s[1..]);
      DecodeEncodeChar(s[0], Encode(s[1..]));
      assert bs[|head|..] == Encode(s[1..]);
      DecodeEncode(s[1..]);
    }
  }
}
