/** `Uri.EscapeDataString` and `Uri.UnescapeDataString`: percent-encoding (sections 2.1 and 2.3 of RFC 3986)
    of the UTF-8 form (section 3 of RFC 3629) of a text. A text is a sequence of Unicode scalar values. */
module PercentEncoding {
  import opened Options

  predicate IsUnreserved(c: char) {
    'A' <= c <= 'Z' || 'a' <= c <= 'z' || '0' <= c <= '9' || c == '-' || c == '.' || c == '_' || c == '~'
  }

  // ----- UTF-8 -----

  predicate IsByte(b: int) { 0 <= b < 0x100 }

  function Utf8(c: char): (bs: seq<int>)
    ensures 1 <= |bs| <= 4
    ensures forall k :: 0 <= k < |bs| ==> IsByte(bs[k])
  {
    var v := c as int;
    if v < 0x80 then [v]
    else if v < 0x800 then [0xC0 + v / 64, 0x80 + v % 64]
    else if v < 0x1_0000 then [0xE0 + v / 4096, 0x80 + v / 64 % 64, 0x80 + v % 64]
    else [0xF0 + v / 262144, 0x80 + v / 4096 % 64, 0x80 + v / 64 % 64, 0x80 + v % 64]
  }

  predicate IsContinuation(b: int) { 0x80 <= b < 0xC0 }

  /** The scalar value with number v, if an encoding that starts at `least` may denote it. */
  function Scalar(v: int, least: nat): Option<char> {
    if least <= v < 0xD800 || (least <= v && 0xE000 <= v < 0x11_0000) then Some(v as char) else None
  }

  /** How many bytes the encoding that starts with b has; 0 if none does. */
  function SequenceLength(b: int): nat {
    if 0 <= b < 0x80 then 1 else if 0xC0 <= b < 0xE0 then 2 else if 0xE0 <= b < 0xF0 then 3
    else if 0xF0 <= b < 0xF8 then 4 else 0
  }

  /** The scalar value that the bytes encode, if they are one whole valid encoding. */
  function DecodeUtf8(bs: seq<int>): Option<char> {
    if |bs| == 0 || SequenceLength(bs[0]) != |bs| || (exists k :: 1 <= k < |bs| && !IsContinuation(bs[k])) then None
    else if |bs| == 1 then Scalar(bs[0], 0)
    else if |bs| == 2 then Scalar((bs[0] - 0xC0) * 64 + (bs[1] - 0x80), 0x80)
    else if |bs| == 3 then Scalar((bs[0] - 0xE0) * 4096 + (bs[1] - 0x80) * 64 + (bs[2] - 0x80), 0x800)
    else Scalar((bs[0] - 0xF0) * 262144 + (bs[1] - 0x80) * 4096 + (bs[2] - 0x80) * 64 + (bs[3] - 0x80), 0x1_0000)
  }

  /** The four forms of section 3 of RFC 3629: the shortest that holds the number, six bits to a byte after the
      first. */
  lemma Utf8Is(c: char)
    ensures var v, bs := c as int, Utf8(c);
            && |bs| == (if v < 0x80 then 1 else if v < 0x800 then 2 else if v < 0x1_0000 then 3 else 4)
            && (forall k :: 1 <= k < |bs| ==> 0x80 <= bs[k] < 0xC0)
            && match |bs|
               case 1 => bs[0] == v
               case 2 => 0xC0 <= bs[0] < 0xE0 && v == (bs[0] - 0xC0) * 64 + (bs[1] - 0x80)
               case 3 => 0xE0 <= bs[0] < 0xF0 && v == (bs[0] - 0xE0) * 4096 + (bs[1] - 0x80) * 64 + (bs[2] - 0x80)
               case _ => 0xF0 <= bs[0] < 0xF8 && v == (bs[0] - 0xF0) * 262144 + (bs[1] - 0x80) * 4096
                                                      + (bs[2] - 0x80) * 64 + (bs[3] - 0x80)
  {
    Base64Digits(c as int);
  }

  lemma Utf8RoundTrip(c: char)
    ensures SequenceLength(Utf8(c)[0]) == |Utf8(c)|
    ensures DecodeUtf8(Utf8(c)) == Some(c)
  {
    var v := c as int;
    Base64Digits(v);
  }

  /** The numbers a text's bytes are made of. */
  lemma Base64Digits(v: int)
    requires v >= 0
    ensures v == v / 64 * 64 + v % 64
    ensures v / 64 == v / 4096 * 64 + v / 64 % 64
    ensures v / 4096 == v / 262144 * 64 + v / 4096 % 64
  {
  }

  // ----- Percent-encoding -----

  function HexDigit(n: int): char
    requires 0 <= n < 16
  {
    "0123456789ABCDEF"[n]
  }

  function HexValue(c: char): Option<int> {
    if '0' <= c <= '9' then Some(c as int - '0' as int)
    else if 'A' <= c <= 'F' then Some(c as int - 'A' as int + 10)
    else if 'a' <= c <= 'f' then Some(c as int - 'a' as int + 10)
    else None
  }

  function Percent(b: int): string
    requires IsByte(b)
  {
    ['%', HexDigit(b / 16), HexDigit(b % 16)]
  }

  function PercentAll(bs: seq<int>): string
    requires forall k :: 0 <= k < |bs| ==> IsByte(bs[k])
  {
    if bs == [] then "" else Percent(bs[0]) + PercentAll(bs[1..])
  }

  function EscapeChar(c: char): string { if IsUnreserved(c) then [c] else PercentAll(Utf8(c)) }

  function EscapeDataString(s: string): string {
    if s == "" then "" else EscapeChar(s[0]) + EscapeDataString(s[1..])
  }

  /** The byte that the escape at the start of s denotes. */
  function EscapedByte(s: string): Option<int> {
    if |s| < 3 || s[0] != '%' || HexValue(s[1]).None? || HexValue(s[2]).None? then None
    else Some(HexValue(s[1]).value * 16 + HexValue(s[2]).value)
  }

  /** The first n escapes of s as bytes, as many as there are. */
  function EscapedBytes(s: string, n: nat): seq<int> {
    if n == 0 || EscapedByte(s).None? then [] else [EscapedByte(s).value] + EscapedBytes(s[3..], n - 1)
  }

  /** Reads escapes that form one valid encoding as the character they denote; copies everything else,
      malformed escapes included. */
  function UnescapeDataString(s: string): string {
    if s == "" then ""
    else
      var b := EscapedByte(s);
      var bs := if b.Some? then EscapedBytes(s, SequenceLength(b.value)) else [];
      var c := DecodeUtf8(bs);
      if c.Some? && 3 * |bs| <= |s| then [c.value] + UnescapeDataString(s[3 * |bs|..])
      else [s[0]] + UnescapeDataString(s[1..])
  }

  /** The characters that are left as they are (section 2.3 of RFC 3986), by number. */
  lemma UnreservedAre(c: char)
    ensures var v := c as int;
            IsUnreserved(c) <==> 65 <= v <= 90 || 97 <= v <= 122 || 48 <= v <= 57 || v in [45, 46, 95, 126]
  {
  }

  /** An escape is a percent sign and two hexadecimal digits, written in upper case and read in either. */
  lemma EscapesAre(b: int)
    requires IsByte(b)
    ensures var digits := "0123456789ABCDEF"; Percent(b) == ['%', digits[b / 16], digits[b % 16]]
  {
  }

  lemma HexDigitsAre(c: char)
    ensures '0' <= c <= '9' ==> HexValue(c) == Some(c as int - 48)
    ensures 'A' <= c <= 'F' ==> HexValue(c) == Some(c as int - 55)
    ensures 'a' <= c <= 'f' ==> HexValue(c) == Some(c as int - 87)
    ensures HexValue(c).None? <==> !('0' <= c <= '9') && !('A' <= c <= 'F') && !('a' <= c <= 'f')
  {
  }

  lemma EscapedByteIs(x: char, y: char, rest: string)
    requires HexValue(x).Some? && HexValue(y).Some?
    ensures EscapedByte(['%', x, y] + rest) == Some(HexValue(x).value * 16 + HexValue(y).value)
  {
    hide HexValue;
  }

  lemma PercentReadsBack(b: int, rest: string)
    requires IsByte(b)
    ensures EscapedByte(Percent(b) + rest) == Some(b)
    ensures (Percent(b) + rest)[3..] == rest
  {
    HexReadsBack(b / 16);
    HexReadsBack(b % 16);
  }

  lemma HexReadsBack(n: int)
    requires 0 <= n < 16
    ensures HexValue(HexDigit(n)) == Some(n)
  {
  }

  lemma {:induction false} PercentAllReadsBack(bs: seq<int>, rest: string)
    requires forall k :: 0 <= k < |bs| ==> IsByte(bs[k])
    ensures |PercentAll(bs)| == 3 * |bs|
    ensures EscapedBytes(PercentAll(bs) + rest, |bs|) == bs
  {
    if bs == [] {
    } else {
      hide Percent, EscapedByte;
      PercentLength(bs[0]);
      var more := PercentAll(bs[1..]);
      assert PercentAll(bs) + rest == Percent(bs[0]) + (more + rest);
      PercentReadsBack(bs[0], more + rest);
      PercentAllReadsBack(bs[1..], rest);
    }
  }

  lemma PercentLength(b: int)
    requires IsByte(b)
    ensures |Percent(b)| == 3
  {
  }

  lemma EscapedCharReadsBack(c: char, rest: string)
    ensures UnescapeDataString(EscapeChar(c) + rest) == [c] + UnescapeDataString(rest)
  {
    var s := EscapeChar(c) + rest;
    if IsUnreserved(c) {
      assert s[0] == c && s[1..] == rest;
    } else {
      var bs := Utf8(c);
      Utf8RoundTrip(c);
      hide Utf8, DecodeUtf8, SequenceLength, UnescapeDataString, PercentAll, EscapedByte, EscapedBytes;
      PercentAllReadsBack(bs, rest);
      FirstByteReadsBack(bs, rest);
      assert s[3 * |bs|..] == rest;
      UnescapeOne(s, bs, c);
    }
  }

  lemma FirstByteReadsBack(bs: seq<int>, rest: string)
    requires bs != [] && forall k :: 0 <= k < |bs| ==> IsByte(bs[k])
    ensures EscapedByte(PercentAll(bs) + rest) == Some(bs[0])
  {
    hide EscapedByte, Percent;
    assert PercentAll(bs) + rest == Percent(bs[0]) + (PercentAll(bs[1..]) + rest);
    PercentReadsBack(bs[0], PercentAll(bs[1..]) + rest);
  }

  lemma UnescapeOne(s: string, bs: seq<int>, c: char)
    requires |bs| > 0 && 3 * |bs| <= |s| && EscapedByte(s) == Some(bs[0])
    requires SequenceLength(bs[0]) == |bs| && EscapedBytes(s, |bs|) == bs && DecodeUtf8(bs) == Some(c)
    ensures UnescapeDataString(s) == [c] + UnescapeDataString(s[3 * |bs|..])
  {
    hide DecodeUtf8, SequenceLength, EscapedByte, EscapedBytes;
  }

  /** Unescaping undoes escaping, for every text. */
  lemma {:induction false} EscapeRoundTrip(s: string)
    ensures UnescapeDataString(EscapeDataString(s)) == s
  {
    if s == "" {
    } else {
      hide EscapeChar, UnescapeDataString;
      EscapedCharReadsBack(s[0], EscapeDataString(s[1..]));
      EscapeRoundTrip(s[1..]);
    }
  }

  /** A text without a percent sign means itself. */
  lemma {:induction false} NothingToUnescape(s: string)
    requires '%' !in s
    ensures UnescapeDataString(s) == s
  {
    if s == "" {
    } else {
      NothingToUnescape(s[1..]);
    }
  }

  predicate IsEscapedChar(c: char) { IsUnreserved(c) || c == '%' }

  lemma {:induction false} PercentAllIsPlain(bs: seq<int>)
    requires forall k :: 0 <= k < |bs| ==> IsByte(bs[k])
    ensures forall k :: 0 <= k < |PercentAll(bs)| ==> IsEscapedChar(PercentAll(bs)[k])
  {
    if bs == [] {
    } else {
      PercentAllIsPlain(bs[1..]);
    }
  }

  /** An escaped text consists of unreserved characters and percent signs, and is empty only for "". */
  lemma {:induction false} EscapedIsPlain(s: string)
    ensures forall k :: 0 <= k < |EscapeDataString(s)| ==> IsEscapedChar(EscapeDataString(s)[k])
    ensures EscapeDataString(s) == "" <==> s == ""
  {
    if s == "" {
    } else {
      EscapedIsPlain(s[1..]);
      if !IsUnreserved(s[0]) {
        PercentAllIsPlain(Utf8(s[0]));
        PercentAllReadsBack(Utf8(s[0]), "");
      }
    }
  }
}
