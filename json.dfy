/**
 * JSON values as the dashboard handles them (RFC 8259), and `JSON.stringify`
 * on them. An object keeps its members in insertion order, which is the
 * order `JSON.stringify` writes them.
 */
module Json {
  import opened Wrappers
  import opened JsSemantics

  datatype Json =
    | JNull
    | JBool(b: bool)
    | JNumber(n: int)
    | JString(s: string)
    | JArray(items: seq<Json>)
    | JObject(members: seq<Member>)

  datatype Member = Member(key: string, value: Json)

  function Keys(ms: seq<Member>): (ks: seq<string>)
    ensures |ks| == |ms|
    ensures forall i :: 0 <= i < |ms| ==> ks[i] == ms[i].key
  {
    if ms == [] then [] else [ms[0].key] + Keys(ms[1..])
  }

  lemma {:induction false} KeysAppend(a: seq<Member>, b: seq<Member>)
    ensures Keys(a + b) == Keys(a) + Keys(b)
  {
    if a != [] {
      assert (a + b)[1..] == a[1..] + b;
      KeysAppend(a[1..], b);
    } else {
      assert a + b == b;
    }
  }

  /** The value of the first member named k (`obj[k]`), if any. */
  function Lookup(ms: seq<Member>, k: string): (r: Option<Json>)
    ensures r.None? <==> k !in Keys(ms)
    ensures r.Some? ==> Member(k, r.value) in ms
  {
    if ms == [] then None else if ms[0].key == k then Some(ms[0].value) else Lookup(ms[1..], k)
  }

  predicate DistinctKeys(ms: seq<Member>) {
    forall i, j :: 0 <= i < j < |ms| ==> ms[i].key != ms[j].key
  }

  /** With distinct keys, a member's own key finds it. */
  lemma {:induction false} LookupDistinct(ms: seq<Member>, k: string, v: Json)
    requires DistinctKeys(ms) && Member(k, v) in ms
    ensures Lookup(ms, k) == Some(v)
  {
    if ms[0] != Member(k, v) {
      var i :| 0 <= i < |ms| && ms[i] == Member(k, v);
      assert ms[1..][i - 1] == ms[i];
      LookupDistinct(ms[1..], k, v);
    }
  }

  lemma KeysPrefix(ms: seq<Member>, i: nat)
    requires i <= |ms|
    ensures Keys(ms[..i]) == Keys(ms)[..i]
  {
  }

  /** A member no earlier member shares a key with is what its key finds. */
  lemma {:induction false} LookupFirstAt(ms: seq<Member>, i: nat)
    requires i < |ms| && ms[i].key !in Keys(ms[..i])
    ensures Lookup(ms, ms[i].key) == Some(ms[i].value)
  {
    if i > 0 {
      assert Keys(ms[..i])[0] == ms[0].key;
      assert ms[1..][..i - 1] == ms[..i][1..];
      assert Keys(ms[1..][..i - 1]) == Keys(ms[..i])[1..];
      LookupFirstAt(ms[1..], i - 1);
    }
  }

  /**
   * Property assignment `obj[k] = v`: an existing key keeps its position and
   * takes the new value; a new key goes to the end.
   */
  function Put(ms: seq<Member>, k: string, v: Json): (r: seq<Member>)
    ensures |r| == |ms| || |r| == |ms| + 1
    ensures forall i :: 0 <= i < |r| ==> r[i] == Member(k, v) || r[i] in ms
  {
    if ms == [] then [Member(k, v)]
    else if ms[0].key == k then [Member(k, v)] + ms[1..]
    else [ms[0]] + Put(ms[1..], k, v)
  }

  lemma {:induction false} PutKeys(ms: seq<Member>, k: string, v: Json)
    ensures Keys(Put(ms, k, v)) == if k in Keys(ms) then Keys(ms) else Keys(ms) + [k]
  {
    if ms == [] {
    } else if ms[0].key == k {
      var r := Put(ms, k, v);
      assert r == [Member(k, v)] + ms[1..];
      assert Keys(r) == Keys(ms);
    } else {
      var r, rest := Put(ms, k, v), Put(ms[1..], k, v);
      PutKeys(ms[1..], k, v);
      assert r == [ms[0]] + rest;
      assert Keys(r) == [ms[0].key] + Keys(rest);
      assert Keys(ms) == [ms[0].key] + Keys(ms[1..]);
      assert k in Keys(ms) <==> k in Keys(ms[1..]);
    }
  }

  lemma {:induction false} PutLookup(ms: seq<Member>, k: string, v: Json, q: string)
    ensures Lookup(Put(ms, k, v), q) == if q == k then Some(v) else Lookup(ms, q)
  {
    if ms != [] && ms[0].key != k {
      PutLookup(ms[1..], k, v, q);
    }
  }

  lemma {:induction false} PutNewKey(ms: seq<Member>, k: string, v: Json)
    requires k !in Keys(ms)
    ensures Put(ms, k, v) == ms + [Member(k, v)]
  {
    if ms != [] {
      assert Keys(ms) == [ms[0].key] + Keys(ms[1..]);
      PutNewKey(ms[1..], k, v);
    }
  }

  // ---------------------------------------------------------------------------
  // JSON.stringify

  /** The lower-case hexadecimal digit `JSON.stringify` uses in `\u00xx`. */
  function LowerHexDigit(d: nat): char
    requires d < 16
  {
    "0123456789abcdef"[d]
  }

  /** QuoteJSONString's treatment of a single code point. */
  function EscapeChar(c: char): (r: string)
    ensures forall k :: 0 <= k < |r| ==> r[k] as int >= 0x20
  {
    if c == '"' then "\\\""
    else if c == '\\' then "\\\\"
    else if c == '\U{0008}' then "\\b"
    else if c == '\U{000C}' then "\\f"
    else if c == '\n' then "\\n"
    else if c == '\r' then "\\r"
    else if c == '\t' then "\\t"
    else if (c as int) < 0x20 then
      "\\u00" + [LowerHexDigit(c as int / 16), LowerHexDigit(c as int % 16)]
    else [c]
  }

  /** QuoteJSONString's body: each code point escaped in turn; no control character is left raw. */
  function Escape(s: string): (r: string)
    ensures forall k :: 0 <= k < |r| ==> r[k] as int >= 0x20
  {
    if s == [] then []
    else
      var head, tail := EscapeChar(s[0]), Escape(s[1..]);
      assert forall k :: |head| <= k < |head + tail| ==> (head + tail)[k] == tail[k - |head|];
      head + tail
  }

  /** A JSON string literal: the escaped text between double quotes, which a JSON reader turns back into the text. */
  function Quote(s: string): (r: string)
    ensures |r| >= 2 && r[0] == '"' && r[|r| - 1] == '"'
    ensures Unescape(r[1..|r| - 1]) == Some(s)
  {
    var body := Escape(s);
    var r := "\"" + body + "\"";
    assert r[1..|r| - 1] == body;
    EscapeRoundTrip(s);
    r
  }

  // Reading a string literal back (section 7 of RFC 8259), the partner of Escape.

  predicate IsHexDigit(c: char) {
    '0' <= c <= '9' || 'a' <= c <= 'f' || 'A' <= c <= 'F'
  }

  function HexValue(c: char): (d: nat)
    requires IsHexDigit(c)
    ensures d < 16
  {
    if '0' <= c <= '9' then c as int - '0' as int
    else if 'a' <= c <= 'f' then c as int - 'a' as int + 10
    else c as int - 'A' as int + 10
  }

  /** The character a two-character escape `\x` stands for. */
  function ShortEscape(x: char): char
    requires x in "\"\\/bfnrt"
  {
    if x == 'b' then '\U{0008}'
    else if x == 'f' then '\U{000C}'
    else if x == 'n' then '\n'
    else if x == 'r' then '\r'
    else if x == 't' then '\t'
    else x
  }

  function Prepend(c: char, rest: Option<string>): Option<string> {
    if rest.Some? then Some([c] + rest.value) else None
  }

  /** The text a string literal's body denotes, or None when the body is not well-formed: a raw quote or
      control character, or a backslash that starts no escape. `\u` escapes naming a lone surrogate are refused. */
  function Unescape(t: string): (r: Option<string>)
    decreases |t|
  {
    if t == [] then Some([])
    else if t[0] == '\\' then
      if |t| >= 2 && t[1] in "\"\\/bfnrt" then Prepend(ShortEscape(t[1]), Unescape(t[2..]))
      else if |t| >= 6 && t[1] == 'u' && IsHexDigit(t[2]) && IsHexDigit(t[3]) && IsHexDigit(t[4]) && IsHexDigit(t[5]) then
        var v := ((HexValue(t[2]) * 16 + HexValue(t[3])) * 16 + HexValue(t[4])) * 16 + HexValue(t[5]);
        if 0xD800 <= v < 0xE000 then None else Prepend(v as char, Unescape(t[6..]))
      else None
    else if t[0] == '"' || (t[0] as int) < 0x20 then None
    else Prepend(t[0], Unescape(t[1..]))
  }

  lemma HexOfLowerDigit(d: nat)
    requires d < 16
    ensures IsHexDigit(LowerHexDigit(d)) && HexValue(LowerHexDigit(d)) == d
  {
  }

  lemma UnescapeShort(x: char, rest: string)
    requires x in "\"\\/bfnrt"
    ensures Unescape(['\\', x] + rest) == Prepend(ShortEscape(x), Unescape(rest))
  {
    assert (['\\', x] + rest)[2..] == rest;
  }

  lemma UnescapeUnicode(c: char, rest: string)
    requires (c as int) < 0x20
    ensures Unescape("\\u00" + [LowerHexDigit(c as int / 16), LowerHexDigit(c as int % 16)] + rest) == Prepend(c, Unescape(rest))
  {
    var t := "\\u00" + [LowerHexDigit(c as int / 16), LowerHexDigit(c as int % 16)] + rest;
    HexOfLowerDigit(c as int / 16);
    HexOfLowerDigit(c as int % 16);
    assert t[1] == 'u' && t[2] == '0' && t[3] == '0';
    assert t[4] == LowerHexDigit(c as int / 16) && t[5] == LowerHexDigit(c as int % 16);
    assert t[6..] == rest;
  }

  lemma UnescapePlain(c: char, rest: string)
    requires c != '"' && c != '\\' && (c as int) >= 0x20
    ensures Unescape([c] + rest) == Prepend(c, Unescape(rest))
  {
    assert ([c] + rest)[1..] == rest;
  }

  /** Reading back one escaped character gives that character. */
  lemma UnescapeChar(c: char, rest: string)
    ensures Unescape(EscapeChar(c) + rest) == Prepend(c, Unescape(rest))
  {
    if c == '"' { UnescapeShort('"', rest); }
    else if c == '\\' { UnescapeShort('\\', rest); }
    else if c == '\U{0008}' { UnescapeShort('b', rest); }
    else if c == '\U{000C}' { UnescapeShort('f', rest); }
    else if c == '\n' { UnescapeShort('n', rest); }
    else if c == '\r' { UnescapeShort('r', rest); }
    else if c == '\t' { UnescapeShort('t', rest); }
    else if (c as int) < 0x20 { UnescapeUnicode(c, rest); }
    else { UnescapePlain(c, rest); }
  }

  lemma {:induction false} EscapeRoundTrip(s: string)
    ensures Unescape(Escape(s)) == Some(s)
  {
    if s != [] {
      UnescapeChar(s[0], Escape(s[1..]));
      EscapeRoundTrip(s[1..]);
      assert [s[0]] + s[1..] == s;
    }
  }

  /** JSON.stringify without indentation. */
  function Stringify(v: Json): (r: string)
    ensures r != []
    decreases v, 1
  {
    match v
    case JNull => "null"
    case JBool(b) => if b then "true" else "false"
    case JNumber(n) => IntToDecimal(n)
    case JString(s) => Quote(s)
    case JArray(items) => "[" + StringifyItems(v, items) + "]"
    case JObject(ms) => "{" + StringifyMembers(v, ms) + "}"
  }

  /** The array's elements joined by ",". */
  function StringifyItems(ghost parent: Json, items: seq<Json>): string
    requires forall x :: x in items ==> x < parent
    decreases parent, 0, |items|
  {
    if items == [] then ""
    else
      assert items[0] in items;
      assert forall x :: x in items[1..] ==> x in items;
      if |items| == 1 then Stringify(items[0])
      else Stringify(items[0]) + "," + StringifyItems(parent, items[1..])
  }

  /** The object's `"key":value` pairs joined by ",". */
  function StringifyMembers(ghost parent: Json, ms: seq<Member>): string
    requires forall m :: m in ms ==> m.value < parent
    decreases parent, 0, |ms|
  {
    if ms == [] then ""
    else
      var first := Quote(ms[0].key) + ":" + Stringify(ms[0].value);
      if |ms| == 1 then first else first + "," + StringifyMembers(parent, ms[1..])
  }
}
