/**
 * Byte-level encodings: the lowercase hex of a digest (`digest('hex')`), UTF-8, and
 * `encodeURIComponent`.
 */
module Encoding {

  type Byte = b: int | 0 <= b < 256

  /** A SHA-256 digest or HMAC-SHA-256 tag: 32 bytes. */
  type Digest = s: seq<Byte> | |s| == 32 witness seq(32, _ => 0)

  predicate IsLowerHex(c: char) {
    '0' <= c <= '9' || 'a' <= c <= 'f'
  }

  function LowerHexDigit(d: nat): (c: char)
    requires d < 16
    ensures IsLowerHex(c)
  {
    if d < 10 then ('0' as int + d) as char else ('a' as int + d - 10) as char
  }

  /** The value of a lowercase hex digit. */
  function HexDigitValue(c: char): (d: nat)
    requires IsLowerHex(c)
    ensures d < 16 && LowerHexDigit(d) == c
  {
    if c <= '9' then c as int - '0' as int else c as int - 'a' as int + 10
  }

  function UpperHexDigit(d: nat): (c: char)
    requires d < 16
    ensures '0' <= c <= '9' || 'A' <= c <= 'F'
  {
    "0123456789ABCDEF"[d]
  }

  /** `digest('hex')`: two lowercase hex digits per byte, high nibble first. */
  function Hex(bs: seq<Byte>): (s: string)
    ensures |s| == 2 * |bs|
    ensures forall i :: 0 <= i < |s| ==> IsLowerHex(s[i])
  {
    if bs == [] then []
    else [LowerHexDigit(bs[0] / 16), LowerHexDigit(bs[0] % 16)] + Hex(bs[1..])
  }

  /** Reads lowercase hex text back into bytes, two digits per byte. */
  function Unhex(s: string): seq<Byte>
    requires |s| % 2 == 0 && forall i :: 0 <= i < |s| ==> IsLowerHex(s[i])
  {
    if s == [] then []
    else [16 * HexDigitValue(s[0]) + HexDigitValue(s[1])] + Unhex(s[2..])
  }

  /** `digest('hex')` loses nothing: reading the hex back gives the bytes. */
  lemma {:induction false} UnhexHex(bs: seq<Byte>)
    ensures Unhex(Hex(bs)) == bs
  {
    if bs != [] {
      var h := Hex(bs);
      assert h[2..] == Hex(bs[1..]);
      assert HexDigitValue(h[0]) == bs[0] / 16;
      assert HexDigitValue(h[1]) == bs[0] % 16;
      UnhexHex(bs[1..]);
    }
  }

  /** Distinct byte strings have distinct hex texts. */
  lemma HexInjective(a: seq<Byte>, b: seq<Byte>)
    requires Hex(a) == Hex(b)
    ensures a == b
  {
    UnhexHex(a);
    UnhexHex(b);
  }

  /** The UTF-8 encoding of one Unicode scalar value: one to four bytes. */
  function Utf8(c: char): (bs: seq<Byte>)
    ensures 1 <= |bs| <= 4
    ensures (|bs| == 1) <==> c as int < 0x80
  {
    var n := c as int;
    if n < 0x80 then [n]
    else if n < 0x800 then [0xC0 + n / 64, 0x80 + n % 64]
    else if n < 0x10000 then [0xE0 + n / 4096, 0x80 + (n / 64) % 64, 0x80 + n % 64]
    else [0xF0 + n / 262144, 0x80 + (n / 4096) % 64, 0x80 + (n / 64) % 64, 0x80 + n % 64]
  }

  /** The characters `encodeURIComponent` leaves as they are. */
  predicate IsUriUnreserved(c: char) {
    'A' <= c <= 'Z' || 'a' <= c <= 'z' || '0' <= c <= '9' ||
    c == '-' || c == '_' || c == '.' || c == '!' || c == '~' || c == '*' || c == '\'' || c == '(' || c == ')'
  }

  /** A string `encodeURIComponent` can produce: only unreserved characters and '%'. */
  predicate UriSafe(s: string) {
    forall i :: 0 <= i < |s| ==> IsUriUnreserved(s[i]) || s[i] == '%'
  }

  function PercentEncode(bs: seq<Byte>): (s: string)
    ensures |s| == 3 * |bs| && UriSafe(s)
  {
    if bs == [] then []
    else ['%', UpperHexDigit(bs[0] / 16), UpperHexDigit(bs[0] % 16)] + PercentEncode(bs[1..])
  }

  /**
   * `encodeURIComponent(s)`: unreserved characters are kept, every other character
   * becomes the %XX escapes of its UTF-8 bytes, so the result never holds a URI
   * delimiter such as '&', '=', '?' or '#'.
   */
  function EncodeUriComponent(s: string): (r: string)
    ensures UriSafe(r)
    ensures (forall i :: 0 <= i < |s| ==> IsUriUnreserved(s[i])) ==> r == s
  {
    if s == [] then []
    else
      var head := if IsUriUnreserved(s[0]) then [s[0]] else PercentEncode(Utf8(s[0]));
      var r := head + EncodeUriComponent(s[1..]);
      assert UriSafe(r) by {
        forall i | 0 <= i < |r| ensures IsUriUnreserved(r[i]) || r[i] == '%' {
          if i >= |head| { assert r[i] == EncodeUriComponent(s[1..])[i - |head|]; }
        }
      }
      r
  }

  /** No character of an encoded component can split a query string. */
  lemma EncodedHasNoDelimiters(s: string)
    ensures '&' !in EncodeUriComponent(s) && '=' !in EncodeUriComponent(s)
    ensures '?' !in EncodeUriComponent(s) && '#' !in EncodeUriComponent(s)
  {
    var r := EncodeUriComponent(s);
    forall i | 0 <= i < |r| ensures r[i] != '&' && r[i] != '=' && r[i] != '?' && r[i] != '#' {
      assert IsUriUnreserved(r[i]) || r[i] == '%';
    }
  }
}
