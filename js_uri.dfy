/**
 * `encodeURIComponent`, used for the label segment of a Blogger feed URL:
 * every character is UTF-8 encoded and every byte outside the unreserved
 * set `A-Z a-z 0-9 - _ . ! ~ * ' ( )` becomes `%HH` (upper-case hex).
 */
module JsUri {
  import opened Wrappers
  import opened JsText

  type byte = b: int | 0 <= b < 256

  /** UTF-8 bytes of one Unicode scalar value. */
  function Utf8(c: char): (bs: seq<byte>)
    ensures 1 <= |bs| <= 4
    ensures |bs| == 1 <==> (c as int) < 0x80
  {
    var n := c as int;
    if n < 0x80 then [n]
    else if n < 0x800 then [0xC0 + n / 64, 0x80 + n % 64]
    else if n < 0x1_0000 then [0xE0 + n / 4096, 0x80 + (n / 64) % 64, 0x80 + n % 64]
    else [0xF0 + n / 262144, 0x80 + (n / 4096) % 64, 0x80 + (n / 64) % 64, 0x80 + n % 64]
  }

  function Utf8String(s: string): seq<byte> {
    if s == [] then [] else Utf8(s[0]) + Utf8String(s[1..])
  }

  /** The characters `encodeURIComponent` leaves as they are. */
  predicate Unreserved(c: char) {
    || ('A' <= c <= 'Z') || ('a' <= c <= 'z') || ('0' <= c <= '9')
    || c == '-' || c == '_' || c == '.' || c == '!' || c == '~' || c == '*' || c == '\'' || c == '(' || c == ')'
  }

  function HexDigit(d: nat): (c: char)
    requires d < 16
    ensures DigitValue(c) == Some(d)
  {
    "0123456789ABCDEF"[d]
  }

  function EncodeByte(b: byte): string {
    if b < 0x80 && Unreserved(b as char) then [b as char]
    else ['%', HexDigit(b / 16), HexDigit(b % 16)]
  }

  function PercentEncode(bs: seq<byte>): string {
    if bs == [] then [] else EncodeByte(bs[0]) + PercentEncode(bs[1..])
  }

  /** `encodeURIComponent(s)`. */
  function EncodeUriComponent(s: string): string {
    PercentEncode(Utf8String(s))
  }

  /** Characters that end or split a URL path segment. */
  predicate UrlDelimiter(c: char) {
    c == '/' || c == '?' || c == '#' || c == '&' || c == '='
  }

  /** Only unreserved characters, `%` and upper-case hex digits come out, so no delimiter. */
  lemma {:induction false} EncodedHasNoDelimiter(bs: seq<byte>)
    ensures forall i :: 0 <= i < |PercentEncode(bs)| ==> !UrlDelimiter(PercentEncode(bs)[i])
  {
    if bs != [] {
      EncodedHasNoDelimiter(bs[1..]);
      var e := EncodeByte(bs[0]);
      var r := PercentEncode(bs[1..]);
      assert forall i :: 0 <= i < |e| ==> !UrlDelimiter(e[i]);
      assert PercentEncode(bs) == e + r;
    }
  }

  /** `decodeURIComponent`'s first stage: `%HH` escapes back to bytes, other ASCII characters as themselves. */
  function PercentDecode(t: string): Option<seq<byte>> {
    if t == [] then Some([])
    else if t[0] == '%' then
      if |t| >= 3 && IsRadixDigit(t[1], 16) && IsRadixDigit(t[2], 16) then
        var b := DigitValue(t[1]).value * 16 + DigitValue(t[2]).value;
        var rest := PercentDecode(t[3..]);
        if rest.Some? then Some([b] + rest.value) else None
      else None
    else if (t[0] as int) < 0x80 then
      var rest := PercentDecode(t[1..]);
      if rest.Some? then Some([t[0] as int] + rest.value) else None
    else None
  }

  /** Percent-encoding is undone by percent-decoding: the encoded label is recoverable. */
  lemma {:induction false} PercentRoundTrip(bs: seq<byte>)
    ensures PercentDecode(PercentEncode(bs)) == Some(bs)
  {
    if bs != [] {
      var b := bs[0];
      PercentRoundTrip(bs[1..]);
      var e := EncodeByte(b);
      var t := PercentEncode(bs);
      assert t == e + PercentEncode(bs[1..]);
      if b < 0x80 && Unreserved(b as char) {
        assert t[0] == b as char && t[1..] == PercentEncode(bs[1..]);
        assert t[0] != '%' && t[0] as int == b;
        assert PercentDecode(t) == Some([b] + bs[1..]);
      } else {
        assert t[0] == '%' && t[3..] == PercentEncode(bs[1..]);
        assert DigitValue(t[1]) == Some(b / 16) && DigitValue(t[2]) == Some(b % 16);
        assert PercentDecode(t) == Some([b] + bs[1..]);
      }
      assert [b] + bs[1..] == bs;
    }
  }

  /** A label made of unreserved characters only is left as it is. */
  lemma {:induction false} EncodeUnreservedIdentity(s: string)
    requires forall i :: 0 <= i < |s| ==> Unreserved(s[i])
    ensures EncodeUriComponent(s) == s
  {
    if s != [] {
      assert (s[0] as int) < 0x80;
      EncodeUnreservedIdentity(s[1..]);
    }
  }
}
