/**
 * Byte-level encodings behind the metadata hex blob: UTF-8 (RFC 3629), as
 * `Buffer.from(text, "utf-8")` applies it, and base-16 text, as
 * `buffer.toString("hex")` writes it.
 */
module Encoding {
  import opened Wrappers
  import opened JsSemantics

  newtype byte = x: int | 0 <= x < 256

  // ---------------------------------------------------------------------------
  // UTF-8

  /** The UTF-8 bytes of one Unicode scalar value. */
  function EncodeScalar(c: char): (bs: seq<byte>)
    ensures 1 <= |bs| <= 4
  {
    var cp := c as int;
    if cp < 0x80 then
      [cp as byte]
    else if cp < 0x800 then
      [(0xC0 + cp / 64) as byte, (0x80 + cp % 64) as byte]
    else if cp < 0x10000 then
      [(0xE0 + cp / 4096) as byte, (0x80 + (cp / 64) % 64) as byte, (0x80 + cp % 64) as byte]
    else
      [(0xF0 + cp / 262144) as byte, (0x80 + (cp / 4096) % 64) as byte,
       (0x80 + (cp / 64) % 64) as byte, (0x80 + cp % 64) as byte]
  }

  /** `Buffer.from(s, "utf-8")`: one to four bytes per code point. */
  function Utf8Encode(s: string): (r: seq<byte>)
    ensures |s| <= |r| <= 4 * |s|
  {
    if s == [] then [] else EncodeScalar(s[0]) + Utf8Encode(s[1..])
  }

  predicate IsContinuation(b: byte) {
    0x80 <= b < 0xC0
  }

  /** The scalar value a well-formed code point, if cp is one. */
  function ScalarOf(cp: int): Option<char> {
    if 0 <= cp < 0xD800 || 0xE000 <= cp < 0x110000 then Some(cp as char) else None
  }

  /**
   * Decodes the first character of bs and says how many bytes it took.
   * Overlong forms, surrogates and values above U+10FFFF are rejected.
   */
  function DecodeFirst(bs: seq<byte>): (r: Option<(char, nat)>)
    ensures r.Some? ==> 1 <= r.value.1 <= |bs|
  {
    if bs == [] then None
    else
      var b0 := bs[0] as int;
      if b0 < 0x80 then
        Some((b0 as char, 1))
      else if 0xC2 <= b0 < 0xE0 && |bs| >= 2 && IsContinuation(bs[1]) then
        var cp := (b0 - 0xC0) * 64 + (bs[1] as int - 0x80);
        match ScalarOf(cp)
        case Some(c) => Some((c, 2))
        case None => None
      else if 0xE0 <= b0 < 0xF0 && |bs| >= 3 && IsContinuation(bs[1]) && IsContinuation(bs[2]) then
        var cp := (b0 - 0xE0) * 4096 + (bs[1] as int - 0x80) * 64 + (bs[2] as int - 0x80);
        if cp < 0x800 then None
        else
          match ScalarOf(cp)
          case Some(c) => Some((c, 3))
          case None => None
      else if 0xF0 <= b0 < 0xF5 && |bs| >= 4
              && IsContinuation(bs[1]) && IsContinuation(bs[2]) && IsContinuation(bs[3]) then
        var cp := (b0 - 0xF0) * 262144 + (bs[1] as int - 0x80) * 4096
                  + (bs[2] as int - 0x80) * 64 + (bs[3] as int - 0x80);
        if cp < 0x10000 then None
        else
          match ScalarOf(cp)
          case Some(c) => Some((c, 4))
          case None => None
      else
        None
  }

  /** Strict UTF-8 decoding: None when bs is not well-formed. */
  function Utf8Decode(bs: seq<byte>): Option<string>
    decreases |bs|
  {
    if bs == [] then Some([])
    else
      match DecodeFirst(bs)
      case None => None
      case Some(first) =>
        match Utf8Decode(bs[first.1..])
        case None => None
        case Some(rest) => Some([first.0] + rest)
  }

  lemma SplitSixBits(x: nat)
    ensures x == (x / 64) * 64 + x % 64
    ensures x / 4096 == (x / 64) / 64
    ensures x / 262144 == (x / 4096) / 64
  {
  }

  lemma DecodeFirstOfEncode(c: char, rest: seq<byte>)
    ensures DecodeFirst(EncodeScalar(c) + rest) == Some((c, |EncodeScalar(c)|))
  {
    var cp := c as int;
    if cp < 0x80 {
    } else if cp < 0x800 {
      DecodeTwoBytes(c, rest);
    } else if cp < 0x10000 {
      DecodeThreeBytes(c, rest);
    } else {
      DecodeFourBytes(c, rest);
    }
  }

  lemma DecodeTwoBytes(c: char, rest: seq<byte>)
    requires 0x80 <= c as int < 0x800
    ensures DecodeFirst(EncodeScalar(c) + rest) == Some((c, 2))
  {
    var cp := c as int;
    var bs := EncodeScalar(c) + rest;
    SplitSixBits(cp);
    assert bs[0] as int - 0xC0 == cp / 64;
    assert bs[1] as int - 0x80 == cp % 64;
  }

  lemma DecodeThreeBytes(c: char, rest: seq<byte>)
    requires 0x800 <= c as int < 0x10000
    ensures DecodeFirst(EncodeScalar(c) + rest) == Some((c, 3))
  {
    var cp := c as int;
    var bs := EncodeScalar(c) + rest;
    SplitSixBits(cp);
    SplitSixBits(cp / 64);
    assert bs[0] as int - 0xE0 == cp / 4096;
    assert bs[1] as int - 0x80 == (cp / 64) % 64;
    assert bs[2] as int - 0x80 == cp % 64;
  }

  lemma DecodeFourBytes(c: char, rest: seq<byte>)
    requires 0x10000 <= c as int
    ensures DecodeFirst(EncodeScalar(c) + rest) == Some((c, 4))
  {
    var cp := c as int;
    var bs := EncodeScalar(c) + rest;
    SplitSixBits(cp);
    SplitSixBits(cp / 64);
    SplitSixBits(cp / 4096);
    assert bs[0] as int - 0xF0 == cp / 262144;
    assert bs[1] as int - 0x80 == (cp / 4096) % 64;
    assert bs[2] as int - 0x80 == (cp / 64) % 64;
    assert bs[3] as int - 0x80 == cp % 64;
  }

  /** Decoding the UTF-8 bytes of a text gives the text back. */
  lemma {:induction false} Utf8RoundTrip(s: string)
    ensures Utf8Decode(Utf8Encode(s)) == Some(s)
  {
    if s != [] {
      var head := EncodeScalar(s[0]);
      var tail := Utf8Encode(s[1..]);
      assert Utf8Encode(s) == head + tail;
      DecodeFirstOfEncode(s[0], tail);
      assert (head + tail)[|head|..] == tail;
      Utf8RoundTrip(s[1..]);
      assert [s[0]] + s[1..] == s;
    }
  }

  // ---------------------------------------------------------------------------
  // Base 16

  const LowerHexDigits: string := "0123456789abcdef"
  const UpperHexDigits: string := "0123456789ABCDEF"

  /** `buffer.toString("hex")`: two lower-case digits per byte. */
  function HexLower(bs: seq<byte>): (r: string)
    ensures |r| == 2 * |bs|
    ensures forall k :: 0 <= k < |r| ==> r[k] in LowerHexDigits
  {
    if bs == [] then "" else [LowerHexDigits[bs[0] / 16], LowerHexDigits[bs[0] % 16]] + HexLower(bs[1..])
  }

  /** Two upper-case digits per byte, high nibble first. */
  function HexUpper(bs: seq<byte>): (r: string)
    ensures |r| == 2 * |bs|
    ensures forall k :: 0 <= k < |r| ==> r[k] in UpperHexDigits
  {
    if bs == [] then "" else [UpperHexDigits[bs[0] / 16], UpperHexDigits[bs[0] % 16]] + HexUpper(bs[1..])
  }

  function HexDigitValue(c: char): Option<nat> {
    if '0' <= c <= '9' then Some(c as int - '0' as int)
    else if 'A' <= c <= 'F' then Some(c as int - 'A' as int + 10)
    else if 'a' <= c <= 'f' then Some(c as int - 'a' as int + 10)
    else None
  }

  /** Reads base-16 text back into bytes; None on an odd length or a non-digit. */
  function HexDecode(s: string): Option<seq<byte>>
    decreases |s|
  {
    if s == [] then Some([])
    else if |s| == 1 then None
    else
      var hi := HexDigitValue(s[0]);
      var lo := HexDigitValue(s[1]);
      var rest := HexDecode(s[2..]);
      if hi.Some? && lo.Some? && rest.Some? && hi.value < 16 && lo.value < 16 then
        Some([(hi.value * 16 + lo.value) as byte] + rest.value)
      else
        None
  }

  lemma HexDigitsRead(d: nat)
    requires d < 16
    ensures HexDigitValue(UpperHexDigits[d]) == Some(d)
    ensures UpperChar(LowerHexDigits[d]) == UpperHexDigits[d]
  {
    UpperDigitRead(d);
  }

  lemma UpperDigitRead(d: nat)
    requires d < 16
    ensures HexDigitValue(UpperHexDigits[d]) == Some(d)
  {
  }

  lemma HexDecodeCons(s: string)
    requires |s| >= 2
    requires HexDigitValue(s[0]).Some? && HexDigitValue(s[0]).value < 16
    requires HexDigitValue(s[1]).Some? && HexDigitValue(s[1]).value < 16
    ensures HexDecode(s)
         == if HexDecode(s[2..]).Some? then
              Some([(HexDigitValue(s[0]).value * 16 + HexDigitValue(s[1]).value) as byte] + HexDecode(s[2..]).value)
            else None
  {
  }

  /** Upper-case hex text decodes back to the bytes it was made from. */
  lemma {:induction false} HexRoundTrip(bs: seq<byte>)
    ensures HexDecode(HexUpper(bs)) == Some(bs)
  {
    if bs != [] {
      var hi := bs[0] as int / 16;
      var lo := bs[0] as int % 16;
      var s := HexUpper(bs);
      assert s[0] == UpperHexDigits[hi] && s[1] == UpperHexDigits[lo] && s[2..] == HexUpper(bs[1..]);
      UpperDigitRead(hi);
      UpperDigitRead(lo);
      HexDecodeCons(s);
      HexRoundTrip(bs[1..]);
      assert (hi * 16 + lo) as byte == bs[0];
      assert [bs[0]] + bs[1..] == bs;
    }
  }

  /** Node's lower-case hex followed by `toUpperCase()` is the upper-case encoding. */
  lemma {:induction false} UpperOfHexLower(bs: seq<byte>)
    ensures ToUpperAscii(HexLower(bs)) == HexUpper(bs)
  {
    if bs != [] {
      UpperOfHexLower(bs[1..]);
      HexDigitsRead(bs[0] as int / 16);
      HexDigitsRead(bs[0] as int % 16);
      var l := HexLower(bs);
      var u := HexUpper(bs);
      assert l[2..] == HexLower(bs[1..]);
      assert u[2..] == HexUpper(bs[1..]);
      assert ToUpperAscii(l)[2..] == ToUpperAscii(l[2..]);
    }
  }
}
