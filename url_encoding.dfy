/** `HttpUtility.UrlEncode` as the forward translator uses it: letters, digits and `-_.!*()`
    are kept, a space becomes `+`, and every other character becomes the `%xx` escapes
    (lower-case hexadecimal) of its UTF-8 bytes. */
module UrlEncoding {

  newtype byte = x: int | 0 <= x < 256

  /** The characters that are copied unchanged. */
  predicate IsUrlSafe(c: char) {
    ('a' <= c <= 'z') || ('A' <= c <= 'Z') || ('0' <= c <= '9')
    || c == '-' || c == '_' || c == '.' || c == '!' || c == '*' || c == '(' || c == ')'
  }

  predicate AllUrlSafe(s: string) {
    forall i :: 0 <= i < |s| ==> IsUrlSafe(s[i])
  }

  /** The UTF-8 encoding of one Unicode scalar value. */
  function Utf8(c: char): (bs: seq<byte>)
    ensures 1 <= |bs| <= 4
    ensures |bs| == 1 <==> c as int < 0x80
  {
    var n := c as int;
    if n < 0x80 then [n as byte]
    else if n < 0x800 then [(0xC0 + n / 0x40) as byte, (0x80 + n % 0x40) as byte]
    else if n < 0x1_0000 then
      [(0xE0 + n / 0x1000) as byte, (0x80 + (n / 0x40) % 0x40) as byte, (0x80 + n % 0x40) as byte]
    else
      [(0xF0 + n / 0x4_0000) as byte, (0x80 + (n / 0x1000) % 0x40) as byte,
       (0x80 + (n / 0x40) % 0x40) as byte, (0x80 + n % 0x40) as byte]
  }

  function Utf8String(s: string): seq<byte> {
    if s == [] then [] else Utf8(s[0]) + Utf8String(s[1..])
  }

  function HexDigit(d: nat): (c: char)
    requires d < 16
  {
    if d < 10 then ('0' as int + d) as char else ('a' as int + d - 10) as char
  }

  function HexValue(c: char): int {
    if '0' <= c <= '9' then c as int - '0' as int
    else if 'a' <= c <= 'f' then c as int - 'a' as int + 10
    else if 'A' <= c <= 'F' then c as int - 'A' as int + 10
    else -1
  }

  lemma HexDigitValue(d: nat)
    requires d < 16
    ensures HexValue(HexDigit(d)) == d
  {
  }

  lemma HexPair(b: nat)
    requires b < 256
    ensures 16 * HexValue(HexDigit(b / 16)) + HexValue(HexDigit(b % 16)) == b
  {
    HexDigitValue(b / 16);
    HexDigitValue(b % 16);
  }

  function EscapeBytes(bs: seq<byte>): (r: string)
    ensures |r| == 3 * |bs|
  {
    if bs == [] then []
    else EscapedByte(bs[0]) + EscapeBytes(bs[1..])
  }

  function EncodeChar(c: char): string {
    if IsUrlSafe(c) then [c]
    else if c == ' ' then "+"
    else EscapeBytes(Utf8(c))
  }

  /** `HttpUtility.UrlEncode(s)`. */
  function UrlEncode(s: string): (r: string)
    ensures |r| >= |s|
  {
    if s == [] then [] else EncodeChar(s[0]) + UrlEncode(s[1..])
  }

  /** The output is fit for a query string: only safe characters, `+` and `%`. */
  lemma {:induction false} UrlEncodeOutputAlphabet(s: string)
    ensures forall i :: 0 <= i < |UrlEncode(s)| ==> IsUrlSafe(UrlEncode(s)[i]) || UrlEncode(s)[i] in "%+"
  {
    if s != [] {
      UrlEncodeOutputAlphabet(s[1..]);
      var e := EncodeChar(s[0]);
      assert forall i :: 0 <= i < |e| ==> IsUrlSafe(e[i]) || e[i] in "%+" by {
        if !IsUrlSafe(s[0]) && s[0] != ' ' {
          EscapeBytesAlphabet(Utf8(s[0]));
        }
      }
    }
  }

  lemma {:induction false} EscapeBytesAlphabet(bs: seq<byte>)
    ensures forall i :: 0 <= i < |EscapeBytes(bs)| ==> IsUrlSafe(EscapeBytes(bs)[i]) || EscapeBytes(bs)[i] == '%'
  {
    if bs != [] {
      EscapeBytesAlphabet(bs[1..]);
    }
  }

  /** A string of safe characters is left as it is. */
  lemma {:induction false} UrlEncodeSafe(s: string)
    requires AllUrlSafe(s)
    ensures UrlEncode(s) == s
  {
    if s != [] {
      UrlEncodeSafe(s[1..]);
    }
  }

  lemma {:induction false} UrlEncodeAppend(a: string, b: string)
    ensures UrlEncode(a + b) == UrlEncode(a) + UrlEncode(b)
  {
    if a == [] {
      assert a + b == b;
    } else {
      assert (a + b)[1..] == a[1..] + b;
      UrlEncodeAppend(a[1..], b);
    }
  }

  /** Percent-decoding to bytes, the inverse direction: `+` is a space, `%xx` one byte,
      any other character its own code. */
  function PercentDecode(t: string): seq<byte>
    decreases |t|
  {
    if t == [] then []
    else if t[0] == '+' then [32 as byte] + PercentDecode(t[1..])
    else if t[0] == '%' && |t| >= 3 && 0 <= HexValue(t[1]) && 0 <= HexValue(t[2]) then
      [(16 * HexValue(t[1]) + HexValue(t[2])) as byte] + PercentDecode(t[3..])
    else [(t[0] as int % 256) as byte] + PercentDecode(t[1..])
  }

  lemma {:induction false} DecodeEscapeBytes(bs: seq<byte>, rest: string)
    ensures PercentDecode(EscapeBytes(bs) + rest) == bs + PercentDecode(rest)
  {
    if bs == [] {
      assert EscapeBytes(bs) + rest == rest;
    } else {
      var tail := EscapeBytes(bs[1..]) + rest;
      assert EscapeBytes(bs) + rest == EscapedByte(bs[0]) + tail;
      DecodeEscapedByte(bs[0], tail);
      DecodeEscapeBytes(bs[1..], rest);
      assert [bs[0]] + bs[1..] == bs;
      AppendAssoc([bs[0]], bs[1..], PercentDecode(rest));
    }
  }

  lemma AppendAssoc(a: seq<byte>, b: seq<byte>, c: seq<byte>)
    ensures a + (b + c) == (a + b) + c
  {
  }

  /** The three characters `%xx` one byte is escaped to. */
  function EscapedByte(b: byte): string {
    ['%', HexDigit(b as nat / 16), HexDigit(b as nat % 16)]
  }

  lemma DecodeEscapedByte(b: byte, tail: string)
    ensures PercentDecode(EscapedByte(b) + tail) == [b] + PercentDecode(tail)
  {
    var t := EscapedByte(b) + tail;
    HexPair(b as nat);
    assert t[0] == '%' && t[1] == HexDigit(b as nat / 16) && t[2] == HexDigit(b as nat % 16);
    assert t[3..] == tail;
  }

  /** Percent-decoding the encoding of a string gives back its UTF-8 bytes. */
  lemma {:induction false} PercentDecodeUrlEncode(s: string)
    ensures PercentDecode(UrlEncode(s)) == Utf8String(s)
  {
    if s != [] {
      var c := s[0];
      var rest := UrlEncode(s[1..]);
      PercentDecodeUrlEncode(s[1..]);
      if IsUrlSafe(c) {
        assert ([c] + rest)[1..] == rest;
      } else if c == ' ' {
        assert ("+" + rest)[1..] == rest;
      } else {
        DecodeEscapeBytes(Utf8(c), rest);
      }
    }
  }
}
