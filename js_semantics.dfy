/**
 * The few pieces of JavaScript's runtime semantics the dashboard relies on:
 * truthiness of optional request fields, `String.prototype.trim`, the ASCII
 * part of `toLowerCase`/`toUpperCase`, `Number.prototype.toString` on integers
 * and `parseInt` without a radix.
 */
module JsSemantics {
  import opened Wrappers

  /** `!!v` for an optional string field: missing and "" are falsy. */
  predicate Truthy(v: Option<string>)
    ensures Truthy(v) <==> !(v == None || v == Some(""))
  {
    v.Some? && v.value != ""
  }

  /** `!!v` for an optional integer field: missing and 0 are falsy. */
  predicate TruthyNumber(v: Option<int>) {
    v.Some? && v.value != 0
  }

  /** `v || fallback` on an optional string. */
  function OrElse(v: Option<string>, fallback: string): (r: string)
    ensures Truthy(v) ==> r == v.value
    ensures !Truthy(v) ==> r == fallback
    ensures fallback != "" ==> r != ""
  {
    if Truthy(v) then v.value else fallback
  }

  /** The value a conditional spread `...(v && { k: v })` writes: v when truthy, nothing otherwise. */
  function Spread(v: Option<string>): (r: Option<string>)
    ensures r.Some? <==> Truthy(v)
    ensures r.Some? ==> r == v
  {
    if Truthy(v) then v else None
  }

  /** A request field that the handler tests with `Array.isArray`. */
  datatype ArrayField<+T> = Absent | NotArray | Elements(items: seq<T>)

  /** `!v || !Array.isArray(v) || v.length === 0` fails exactly for a non-empty array. */
  predicate NonEmptyArray<T>(v: ArrayField<T>)
    ensures !NonEmptyArray(v) <==> v.Absent? || v.NotArray? || (v.Elements? && |v.items| == 0)
  {
    v.Elements? && |v.items| > 0
  }

  /** `s || undefined` on a form field: "" is not sent. */
  function NonEmpty(s: string): Option<string> {
    if s == "" then None else Some(s)
  }

  // ---------------------------------------------------------------------------
  // Whitespace and trim

  /** ECMAScript WhiteSpace and LineTerminator code points (what `trim` removes). */
  predicate IsJsWhitespace(c: char) {
    || c == '\t' || c == '\n' || c == '\U{000B}' || c == '\U{000C}' || c == '\r'
    || c == ' ' || c == '\U{00A0}' || c == '\U{1680}'
    || ('\U{2000}' <= c <= '\U{200A}')
    || c == '\U{2028}' || c == '\U{2029}' || c == '\U{202F}' || c == '\U{205F}'
    || c == '\U{3000}' || c == '\U{FEFF}'
  }

  predicate IsBlank(s: string) {
    forall k :: 0 <= k < |s| ==> IsJsWhitespace(s[k])
  }

  /** Drops leading whitespace: the result is the suffix after the blank prefix. */
  function TrimStart(s: string): (r: string)
    ensures |r| <= |s| && r == s[|s| - |r|..]
    ensures IsBlank(s[..|s| - |r|])
    ensures r == [] || !IsJsWhitespace(r[0])
  {
    if s != [] && IsJsWhitespace(s[0]) then
      var r := TrimStart(s[1..]);
      assert s[..|s| - |r|] == [s[0]] + s[1..][..|s[1..]| - |r|];
      r
    else
      s
  }

  /** Drops trailing whitespace: the result is the prefix before the blank suffix. */
  function TrimEnd(s: string): (r: string)
    ensures |r| <= |s| && r == s[..|r|]
    ensures IsBlank(s[|r|..])
    ensures r == [] || !IsJsWhitespace(r[|r| - 1])
  {
    if s != [] && IsJsWhitespace(s[|s| - 1]) then
      var r := TrimEnd(s[..|s| - 1]);
      assert s[|r|..] == s[..|s| - 1][|r|..] + [s[|s| - 1]];
      r
    else
      s
  }

  /**
   * String.prototype.trim: the input with a blank prefix and a blank suffix
   * cut off, and neither end of what is left is whitespace.
   */
  function Trim(s: string): (r: string)
    ensures exists a, b :: 0 <= a <= b <= |s| && r == s[a..b] && IsBlank(s[..a]) && IsBlank(s[b..])
    ensures r == [] || (!IsJsWhitespace(r[0]) && !IsJsWhitespace(r[|r| - 1]))
  {
    var t := TrimStart(s);
    var r := TrimEnd(t);
    assert r != [] ==> r[0] == t[0];
    BlankCuts(s, t, r);
    assert 0 <= |s| - |t| <= |s| - |t| + |r| <= |s|;
    r
  }

  /** A blank prefix cut off s, then a blank suffix cut off what is left: the kept part lies between two blank ends of s. */
  lemma BlankCuts(s: string, t: string, r: string)
    requires |t| <= |s| && t == s[|s| - |t|..] && IsBlank(s[..|s| - |t|])
    requires |r| <= |t| && r == t[..|r|] && IsBlank(t[|r|..])
    ensures r == s[|s| - |t|..|s| - |t| + |r|] && IsBlank(s[|s| - |t| + |r|..])
  {
    assert s[|s| - |t| + |r|..] == t[|r|..];
  }

  /** The two cut points of `trim`: what is kept lies between two blank ends. */
  lemma TrimCuts(s: string) returns (a: nat, b: nat)
    ensures a <= b <= |s| && Trim(s) == s[a..b] && IsBlank(s[..a]) && IsBlank(s[b..])
  {
    a, b :| a <= b <= |s| && Trim(s) == s[a..b] && IsBlank(s[..a]) && IsBlank(s[b..]);
  }

  /** `!s.trim()` holds exactly for the strings made of whitespace only. */
  lemma TrimEmptyIffBlank(s: string)
    ensures Trim(s) == "" <==> IsBlank(s)
  {
    var t := TrimStart(s);
    if Trim(s) == "" {
      assert IsBlank(t[0..]);
      assert s == s[..|s| - |t|] + t;
    } else {
      var r := Trim(s);
      assert r == t[..|r|];
      assert t == s[|s| - |t|..];
      assert s[|s| - |t|] == r[0];
    }
  }

  // ---------------------------------------------------------------------------
  // ASCII case mapping

  function LowerChar(c: char): char {
    if 'A' <= c <= 'Z' then (c as int + 32) as char else c
  }

  function UpperChar(c: char): char {
    if 'a' <= c <= 'z' then (c as int - 32) as char else c
  }

  /**
   * The ASCII part of `toLowerCase`: each capital becomes its small letter,
   * 32 code points up, every other character stays.
   */
  function ToLowerAscii(s: string): (r: string)
    ensures |r| == |s|
    ensures forall k :: 0 <= k < |s| ==>
              if 'A' <= s[k] <= 'Z' then r[k] as int == s[k] as int + 32 else r[k] == s[k]
    ensures forall k :: 0 <= k < |r| ==> !('A' <= r[k] <= 'Z')
  {
    seq(|s|, k requires 0 <= k < |s| => LowerChar(s[k]))
  }

  /**
   * The ASCII part of `toUpperCase`: each small letter becomes its capital,
   * 32 code points down, every other character stays.
   */
  function ToUpperAscii(s: string): (r: string)
    ensures |r| == |s|
    ensures forall k :: 0 <= k < |s| ==>
              if 'a' <= s[k] <= 'z' then r[k] as int == s[k] as int - 32 else r[k] == s[k]
    ensures forall k :: 0 <= k < |r| ==> !('a' <= r[k] <= 'z')
  {
    seq(|s|, k requires 0 <= k < |s| => UpperChar(s[k]))
  }

  /** Lower-casing a slice is slicing the lower-cased text. */
  lemma LowerOfSlice(s: string, a: nat, b: nat)
    requires a <= b <= |s|
    ensures ToLowerAscii(s)[a..b] == ToLowerAscii(s[a..b])
  {
  }

  /** Lower-casing neither makes nor unmakes whitespace. */
  lemma BlankOfLower(s: string)
    ensures IsBlank(ToLowerAscii(s)) <==> IsBlank(s)
  {
    if IsBlank(ToLowerAscii(s)) {
      forall k | 0 <= k < |s| ensures IsJsWhitespace(s[k]) {
        assert IsJsWhitespace(ToLowerAscii(s)[k]);
      }
    }
  }

  /** Cutting blank ends off the lower-cased text cuts the same blank ends off the text. */
  lemma LowerCuts(s: string, a: nat, b: nat)
    requires a <= b <= |s| && IsBlank(ToLowerAscii(s)[..a]) && IsBlank(ToLowerAscii(s)[b..])
    ensures ToLowerAscii(s)[a..b] == ToLowerAscii(s[a..b])
    ensures IsBlank(s[..a]) && IsBlank(s[b..])
  {
    LowerOfSlice(s, a, b);
    assert IsBlank(s[..a]) by {
      LowerOfSlice(s, 0, a);
      assert ToLowerAscii(s)[..a] == ToLowerAscii(s[..a]);
      BlankOfLower(s[..a]);
    }
    assert IsBlank(s[b..]) by {
      LowerOfSlice(s, b, |s|);
      assert ToLowerAscii(s)[b..] == ToLowerAscii(s[b..]);
      BlankOfLower(s[b..]);
    }
  }

  // ---------------------------------------------------------------------------
  // Integers as decimal text

  predicate IsDigit(c: char) {
    '0' <= c <= '9'
  }

  predicate AllDigits(s: string) {
    forall k :: 0 <= k < |s| ==> IsDigit(s[k])
  }

  function DigitChar(d: nat): (c: char)
    requires d < 10
  {
    ('0' as int + d) as char
  }

  /** `String(n)` / template interpolation of a non-negative integer. */
  function NatToDecimal(n: nat): (r: string)
    ensures |r| >= 1 && AllDigits(r)
    ensures r[0] == '0' ==> n == 0
    decreases n
  {
    if n < 10 then [DigitChar(n)] else NatToDecimal(n / 10) + [DigitChar(n % 10)]
  }

  /** `String(n)` for any integer (the model has no fractions). */
  function IntToDecimal(n: int): (r: string)
    ensures |r| >= 1 && (r[0] == '-' <==> n < 0)
    ensures n < 0 ==> |r| >= 2 && AllDigits(r[1..]) && r[1] != '0'
    ensures n >= 0 ==> AllDigits(r) && (r[0] == '0' ==> r == "0")
  {
    if n < 0 then "-" + NatToDecimal(-n) else NatToDecimal(n)
  }

  /** The value of a digit string, most significant digit first. */
  function DecimalValue(s: string): nat
    requires AllDigits(s)
  {
    if s == [] then 0 else 10 * DecimalValue(s[..|s| - 1]) + (s[|s| - 1] as int - '0' as int)
  }

  /** Reading back the decimal text of n gives n. */
  lemma {:induction false} DecimalRoundTrip(n: nat)
    ensures DecimalValue(NatToDecimal(n)) == n
  {
    if n >= 10 {
      DecimalRoundTrip(n / 10);
      var r := NatToDecimal(n);
      assert r[..|r| - 1] == NatToDecimal(n / 10);
    }
  }

  // ---------------------------------------------------------------------------
  // parseInt(s) with the radix left undefined

  /** The value of c as a digit in the given radix, if it is one. */
  function RadixDigit(c: char, radix: nat): Option<nat> {
    var v: int :=
      if '0' <= c <= '9' then c as int - '0' as int
      else if 'a' <= c <= 'z' then c as int - 'a' as int + 10
      else if 'A' <= c <= 'Z' then c as int - 'A' as int + 10
      else 36;
    if v < radix then Some(v) else None
  }

  /** Length of the longest prefix of s made of radix digits. */
  function DigitPrefixLength(s: string, radix: nat): (n: nat)
    ensures n <= |s|
    ensures forall k :: 0 <= k < n ==> RadixDigit(s[k], radix).Some?
    ensures n < |s| ==> RadixDigit(s[n], radix).None?
  {
    if s != [] && RadixDigit(s[0], radix).Some? then 1 + DigitPrefixLength(s[1..], radix) else 0
  }

  /** Every character of s is a digit in the radix. */
  predicate RadixDigits(s: string, radix: nat) {
    forall k :: 0 <= k < |s| ==> RadixDigit(s[k], radix).Some?
  }

  function RadixValue(s: string, radix: nat): nat
    requires RadixDigits(s, radix)
  {
    if s == [] then 0
    else
      var init := s[..|s| - 1];
      assert RadixDigits(init, radix) by {
        forall k | 0 <= k < |init| ensures RadixDigit(init[k], radix).Some? {
          assert init[k] == s[k];
        }
      }
      var high: nat := RadixValue(init, radix);
      var low: nat := RadixDigit(s[|s| - 1], radix).value;
      radix * high + low
  }

  /** The unsigned part of parseInt: a "0x"/"0X" prefix selects radix 16. */
  function ParseUnsigned(u: string): Option<nat> {
    var hex := |u| >= 2 && u[0] == '0' && (u[1] == 'x' || u[1] == 'X');
    var radix := if hex then 16 else 10;
    var body := if hex then u[2..] else u;
    var digits := body[..DigitPrefixLength(body, radix)];
    if digits == [] then None else Some(RadixValue(digits, radix))
  }

  /**
   * parseInt(s): skip leading whitespace, an optional sign, a "0x"/"0X" prefix
   * that switches to radix 16, then the longest run of digits; None is NaN
   * (no digit at all). A negative zero is reported as 0.
   */
  function ParseInt(s: string): (r: Option<int>)
    ensures TrimStart(s) == [] ==> r.None?
    ensures r.Some? && r.value < 0 ==> TrimStart(s)[0] == '-'
  {
    var t := TrimStart(s);
    if t != [] && t[0] == '-' then
      match ParseUnsigned(t[1..])
      case None => None
      case Some(v) => Some(0 - v)
    else if t != [] && t[0] == '+' then
      match ParseUnsigned(t[1..])
      case None => None
      case Some(v) => Some(v)
    else
      match ParseUnsigned(t)
      case None => None
      case Some(v) => Some(v)
  }

  lemma {:induction false} RadixTenIsDecimal(s: string)
    requires AllDigits(s)
    ensures RadixDigits(s, 10)
    ensures RadixValue(s, 10) == DecimalValue(s)
  {
    if s != [] {
      RadixTenIsDecimal(s[..|s| - 1]);
    }
  }

  lemma {:induction false} DigitPrefixOfDigits(s: string)
    requires AllDigits(s)
    ensures DigitPrefixLength(s, 10) == |s|
  {
    if s != [] {
      DigitPrefixOfDigits(s[1..]);
    }
  }

  lemma ParseUnsignedOfDecimal(m: nat)
    ensures ParseUnsigned(NatToDecimal(m)) == Some(m)
  {
    var d := NatToDecimal(m);
    DigitPrefixOfDigits(d);
    RadixTenIsDecimal(d);
    DecimalRoundTrip(m);
    assert d[..|d|] == d;
  }

  /** Text starting with a digit: parseInt is the unsigned reading. */
  lemma ParseIntOfDigitHead(t: string)
    requires t != [] && IsDigit(t[0])
    ensures ParseUnsigned(t).Some? ==> ParseInt(t) == Some(ParseUnsigned(t).value)
  {
    assert !IsJsWhitespace(t[0]);
    assert TrimStart(t) == t;
    assert t[0] != '-' && t[0] != '+';
  }

  /** Text starting with a minus sign: parseInt negates the unsigned reading of the rest. */
  lemma ParseIntOfMinusHead(t: string)
    requires t != [] && t[0] == '-'
    ensures ParseUnsigned(t[1..]).Some? ==> ParseInt(t) == Some(0 - ParseUnsigned(t[1..]).value)
  {
    assert !IsJsWhitespace(t[0]);
    assert TrimStart(t) == t;
  }

  /** parseInt reads back the decimal text of every integer. */
  lemma ParseIntOfDecimal(n: int)
    ensures ParseInt(IntToDecimal(n)) == Some(n)
  {
    var m: nat := if n < 0 then -n else n;
    var d := NatToDecimal(m);
    ParseUnsignedOfDecimal(m);
    if n < 0 {
      var s := IntToDecimal(n);
      assert s == "-" + d && s[1..] == d;
      ParseIntOfMinusHead(s);
    } else {
      assert IntToDecimal(n) == d;
      ParseIntOfDigitHead(d);
    }
  }

  lemma {:induction false} DigitPrefixBeforeStop(d: string, rest: string)
    requires AllDigits(d)
    requires rest == [] || RadixDigit(rest[0], 10).None?
    ensures DigitPrefixLength(d + rest, 10) == |d|
  {
    if d != [] {
      assert (d + rest)[1..] == d[1..] + rest;
      DigitPrefixBeforeStop(d[1..], rest);
    } else {
      assert d + rest == rest;
    }
  }

  /** The unsigned reading of a number followed by a non-digit is the number. */
  lemma ParseUnsignedOfDecimalPrefix(n: nat, rest: string)
    requires rest != [] && rest[0] == ' '
    ensures ParseUnsigned(NatToDecimal(n) + rest) == Some(n)
  {
    var d := NatToDecimal(n);
    var u := d + rest;
    assert u[0] == d[0];
    assert !(|u| >= 2 && u[0] == '0' && (u[1] == 'x' || u[1] == 'X')) by {
      if |d| == 1 {
        assert u[1] == ' ';
      } else {
        assert u[1] == d[1];
      }
    }
    DigitPrefixBeforeStop(d, rest);
    assert u[..DigitPrefixLength(u, 10)] == d;
    RadixTenIsDecimal(d);
    DecimalRoundTrip(n);
  }

  /** parseInt reads the leading decimal number of a text and ignores what follows the first non-digit. */
  lemma ParseIntOfDecimalPrefix(n: nat, rest: string)
    requires rest != [] && rest[0] == ' '
    ensures ParseInt(NatToDecimal(n) + rest) == Some(n)
  {
    var u := NatToDecimal(n) + rest;
    assert u[0] == NatToDecimal(n)[0];
    ParseUnsignedOfDecimalPrefix(n, rest);
    ParseIntOfDigitHead(u);
  }
}
