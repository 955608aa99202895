/** `urllib.parse.quote(s)` with its default `safe='/'`: the string is
    encoded as UTF-8 and every byte that is not an unreserved character
    (section 2.3 of RFC 3986) or '/' is written as '%' and two upper-case hex
    digits (section 2.1 of RFC 3986). Its inverse is percent-decoding. */
module UrlQuote {

  type Byte = b: int | 0 <= b < 256

  /** The characters quote never escapes: the unreserved set of RFC 3986
      and the default safe character '/'. */
  predicate IsSafe(c: char) {
    ('A' <= c <= 'Z') || ('a' <= c <= 'z') || ('0' <= c <= '9')
    || c == '_' || c == '.' || c == '-' || c == '~' || c == '/'
  }

  /** The UTF-8 encoding of one Unicode scalar value. */
  function Utf8(c: char): (bs: seq<Byte>)
    ensures 1 <= |bs| <= 4
    ensures (c as int < 0x80) <==> |bs| == 1
    ensures |bs| == 1 ==> bs[0] == c as int
    ensures |bs| == 2 ==> 0xC0 <= bs[0] < 0xE0
    ensures |bs| == 3 ==> 0xE0 <= bs[0] < 0xF0
    ensures |bs| == 4 ==> 0xF0 <= bs[0] < 0xF8
    ensures forall i :: 1 <= i < |bs| ==> 0x80 <= bs[i] < 0xC0
  {
    var n := c as int;
    if n < 0x80 then [n]
    else if n < 0x800 then [0xC0 + n / 0x40, 0x80 + n % 0x40]
    else if n < 0x10000 then [0xE0 + n / 0x1000, 0x80 + (n / 0x40) % 0x40, 0x80 + n % 0x40]
    else [0xF0 + n / 0x40000, 0x80 + (n / 0x1000) % 0x40, 0x80 + (n / 0x40) % 0x40, 0x80 + n % 0x40]
  }

  /** The UTF-8 encoding of a string. */
  function Utf8String(s: string): (bs: seq<Byte>) {
    if s == [] then [] else Utf8(s[0]) + Utf8String(s[1..])
  }

  const HEX_DIGITS: string := "0123456789ABCDEF"

  /** "%XY" for byte b, X and Y its upper-case hex digits. */
  function EscapeByte(b: Byte): (e: string) {
    ['%', HEX_DIGITS[b / 16], HEX_DIGITS[b % 16]]
  }

  function EscapeBytes(bs: seq<Byte>): (e: string) {
    if bs == [] then [] else EscapeByte(bs[0]) + EscapeBytes(bs[1..])
  }

  function QuoteChar(c: char): (q: string) {
    if IsSafe(c) then [c] else EscapeBytes(Utf8(c))
  }

  /** `urllib.parse.quote(s)`. */
  function Quote(s: string): (q: string) {
    if s == [] then [] else QuoteChar(s[0]) + Quote(s[1..])
  }

  predicate IsHexDigit(c: char) {
    ('0' <= c <= '9') || ('A' <= c <= 'F') || ('a' <= c <= 'f')
  }

  function HexValue(c: char): (v: nat)
    requires IsHexDigit(c)
    ensures v < 16
  {
    if '0' <= c <= '9' then c as int - '0' as int
    else if 'A' <= c <= 'F' then c as int - 'A' as int + 10
    else c as int - 'a' as int + 10
  }

  /** `urllib.parse.unquote_to_bytes(t)`: "%XY" with two hex digits (either
      case) gives one byte, any other character its UTF-8 bytes. */
  function PercentDecode(t: string): (bs: seq<Byte>) {
    if t == [] then []
    else if |t| >= 3 && t[0] == '%' && IsHexDigit(t[1]) && IsHexDigit(t[2]) then
      [HexValue(t[1]) * 16 + HexValue(t[2])] + PercentDecode(t[3..])
    else Utf8(t[0]) + PercentDecode(t[1..])
  }

  lemma HexDigitValue(d: nat)
    requires d < 16
    ensures IsHexDigit(HEX_DIGITS[d]) && HexValue(HEX_DIGITS[d]) == d
  {
  }

  /** Decoding one escape gives its byte back. */
  lemma DecodeEscape(b: Byte, tail: string)
    ensures PercentDecode(EscapeByte(b) + tail) == [b] + PercentDecode(tail)
  {
    HexDigitValue(b / 16);
    HexDigitValue(b % 16);
    var t := EscapeByte(b) + tail;
    assert t[0] == '%' && t[1] == HEX_DIGITS[b / 16] && t[2] == HEX_DIGITS[b % 16];
    assert t[3..] == tail;
  }

  /** Decoding an escaped run of bytes gives those bytes back. */
  lemma {:induction false} DecodeEscapes(bs: seq<Byte>, rest: string)
    ensures PercentDecode(EscapeBytes(bs) + rest) == bs + PercentDecode(rest)
  {
    if bs == [] {
      assert EscapeBytes(bs) + rest == rest;
    } else {
      var tail := EscapeBytes(bs[1..]) + rest;
      calc {
        PercentDecode(EscapeBytes(bs) + rest);
        { assert EscapeBytes(bs) + rest == EscapeByte(bs[0]) + tail; }
        PercentDecode(EscapeByte(bs[0]) + tail);
        { DecodeEscape(bs[0], tail); }
        [bs[0]] + PercentDecode(tail);
        { DecodeEscapes(bs[1..], rest); }
        [bs[0]] + (bs[1..] + PercentDecode(rest));
        { assert bs == [bs[0]] + bs[1..]; }
        bs + PercentDecode(rest);
      }
    }
  }

  /** Percent-decoding undoes quote: it gives the UTF-8 bytes of the
      original string. */
  lemma {:induction false} QuoteRoundTrip(s: string)
    ensures PercentDecode(Quote(s)) == Utf8String(s)
  {
    if s != [] {
      QuoteRoundTrip(s[1..]);
      var c := s[0];
      if IsSafe(c) {
        assert ([c] + Quote(s[1..]))[1..] == Quote(s[1..]);
      } else {
        DecodeEscapes(Utf8(c), Quote(s[1..]));
      }
    }
  }

  /** Quoted text holds only safe characters and '%'. */
  lemma {:induction false} QuoteIsUrlSafe(s: string)
    ensures forall i :: 0 <= i < |Quote(s)| ==> IsSafe(Quote(s)[i]) || Quote(s)[i] == '%'
  {
    if s != [] {
      QuoteIsUrlSafe(s[1..]);
      EscapesAreUrlSafe(Utf8(s[0]));
    }
  }

  lemma {:induction false} EscapesAreUrlSafe(bs: seq<Byte>)
    ensures forall i :: 0 <= i < |EscapeBytes(bs)| ==> IsSafe(EscapeBytes(bs)[i]) || EscapeBytes(bs)[i] == '%'
  {
    if bs != [] {
      EscapesAreUrlSafe(bs[1..]);
    }
  }

  /** A string of safe characters only is left as it is. */
  lemma {:induction false} QuoteKeepsSafe(s: string)
    requires forall i :: 0 <= i < |s| ==> IsSafe(s[i])
    ensures Quote(s) == s
  {
    if s != [] {
      QuoteKeepsSafe(s[1..]);
    }
  }
}
