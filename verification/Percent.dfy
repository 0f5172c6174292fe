/**
 * Percent-encoding as ECMAScript's `encodeURIComponent` and `decodeURIComponent` do it
 * (section 2.1 of RFC 3986 over UTF-8). Strings are sequences of Unicode scalar values, so lone
 * surrogates, on which the originals throw, do not occur.
 */
module Percent {
  import opened Wrappers
  import opened Sequences

  type Byte = b: int | 0 <= b < 256

  // ---------- UTF-8 ----------

  function Utf8(c: char): (bytes: seq<Byte>)
    ensures 1 <= |bytes| <= 4
  {
    var n := c as int;
    if n < 0x80 then [n]
    else if n < 0x800 then [0xC0 + n / 64, 0x80 + n % 64]
    else if n < 0x1_0000 then [0xE0 + n / 4096, 0x80 + n / 64 % 64, 0x80 + n % 64]
    else [0xF0 + n / 262144, 0x80 + n / 4096 % 64, 0x80 + n / 64 % 64, 0x80 + n % 64]
  }

  /** The number of bytes that a first byte announces, 0 when it cannot start a character. */
  function Utf8Length(first: Byte): nat {
    if first < 0x80 then 1
    else if 0xC2 <= first < 0xE0 then 2
    else if 0xE0 <= first < 0xF0 then 3
    else if 0xF0 <= first < 0xF5 then 4
    else 0
  }

  predicate IsContinuation(b: Byte) {
    0x80 <= b < 0xC0
  }

  predicate IsScalar(n: int) {
    0 <= n < 0xD800 || 0xE000 <= n < 0x11_0000
  }

  /** The code point of a byte sequence of the announced length, before it is checked. */
  function CodePoint(bytes: seq<Byte>): int
    requires 1 <= |bytes| <= 4
  {
    if |bytes| == 1 then bytes[0]
    else if |bytes| == 2 then (bytes[0] as int - 0xC0) * 64 + (bytes[1] as int - 0x80)
    else if |bytes| == 3 then
      (bytes[0] as int - 0xE0) * 4096 + (bytes[1] as int - 0x80) * 64 + (bytes[2] as int - 0x80)
    else
      (bytes[0] as int - 0xF0) * 262144 + (bytes[1] as int - 0x80) * 4096 + (bytes[2] as int - 0x80) * 64
      + (bytes[3] as int - 0x80)
  }

  /** A valid encoding is the shortest one of a scalar value. */
  function Utf8Decode(bytes: seq<Byte>): Option<char>
    requires |bytes| > 0 && |bytes| == Utf8Length(bytes[0])
  {
    if exists i | 1 <= i < |bytes| :: !IsContinuation(bytes[i]) then None
    else
      var n := CodePoint(bytes);
      if !IsScalar(n) || (|bytes| == 3 && n < 0x800) || (|bytes| == 4 && n < 0x1_0000) then None
      else Some(n as char)
  }

  lemma TwoBytes(n: nat)
    requires 0x80 <= n < 0x800
    ensures 0xC2 <= 0xC0 + n / 64 < 0xE0
    ensures CodePoint([0xC0 + n / 64, 0x80 + n % 64]) == n
  {}

  lemma ThreeBytes(n: nat)
    requires 0x800 <= n < 0x1_0000
    ensures 0xE0 <= 0xE0 + n / 4096 < 0xF0
    ensures CodePoint([0xE0 + n / 4096, 0x80 + n / 64 % 64, 0x80 + n % 64]) == n
  {
    assert n == n / 64 * 64 + n % 64;
    assert n / 64 == n / 64 / 64 * 64 + n / 64 % 64;
    assert n / 4096 == n / 64 / 64;
  }

  lemma FourBytes(n: nat)
    requires 0x1_0000 <= n < 0x11_0000
    ensures 0xF0 <= 0xF0 + n / 262144 < 0xF5
    ensures
      CodePoint([0xF0 + n / 262144, 0x80 + n / 4096 % 64, 0x80 + n / 64 % 64, 0x80 + n % 64]) == n
  {
    var high := n / 64;
    assert n == high * 64 + n % 64;
    assert high == high / 64 * 64 + high % 64;
    assert n / 4096 == high / 64;
    assert n / 262144 == high / 64 / 64;
    assert high / 64 == high / 64 / 64 * 64 + high / 64 % 64;
  }

  lemma Utf8CodePoint(c: char)
    ensures |Utf8(c)| == Utf8Length(Utf8(c)[0])
    ensures CodePoint(Utf8(c)) == c as int
  {
    var n := c as int;
    hide CodePoint;
    if n < 0x80 {
      assert CodePoint([n]) == n by { SingleByte(n); }
    } else if n < 0x800 {
      TwoBytes(n);
    } else if n < 0x1_0000 {
      ThreeBytes(n);
    } else {
      FourBytes(n);
    }
  }

  lemma SingleByte(n: Byte)
    ensures CodePoint([n]) == n
  {}

  /** Every character is read back from its encoding. */
  lemma Utf8RoundTrip(c: char)
    ensures |Utf8(c)| == Utf8Length(Utf8(c)[0])
    ensures Utf8Decode(Utf8(c)) == Some(c)
  {
    Utf8CodePoint(c);
    hide CodePoint;
    assert forall i | 1 <= i < |Utf8(c)| :: IsContinuation(Utf8(c)[i]);
  }

  // ---------- Escapes ----------

  function HexDigit(v: int): (c: char)
    requires 0 <= v < 16
    ensures '0' <= c <= '9' || 'A' <= c <= 'F'
  {
    if v < 10 then '0' + v as char else 'A' + (v - 10) as char
  }

  function HexValue(c: char): (r: Option<int>)
    ensures r.Some? ==> 0 <= r.value < 16
  {
    if '0' <= c <= '9' then Some(c as int - '0' as int)
    else if 'A' <= c <= 'F' then Some(c as int - 'A' as int + 10)
    else if 'a' <= c <= 'f' then Some(c as int - 'a' as int + 10)
    else None
  }

  function Escape(b: Byte): (s: string)
    ensures |s| == 3 && s[0] == '%'
  {
    ['%', HexDigit(b / 16), HexDigit(b % 16)]
  }

  function EscapeAll(bytes: seq<Byte>): (s: string)
    ensures |s| == 3 * |bytes|
  {
    if bytes == [] then "" else Escape(bytes[0]) + EscapeAll(bytes[1..])
  }

  /** The byte that an escape at the start of `s` stands for. */
  function Unescape(s: string): (r: Option<Byte>)
    ensures r.Some? ==> |s| >= 3 && s[0] == '%'
  {
    if |s| < 3 || s[0] != '%' then None
    else
      match (HexValue(s[1]), HexValue(s[2]))
      case (Some(high), Some(low)) => Some(high * 16 + low)
      case _ => None
  }

  lemma UnescapeEscape(b: Byte, rest: string)
    ensures Unescape(Escape(b) + rest) == Some(b)
    ensures (Escape(b) + rest)[3..] == rest
  {
    assert HexValue(HexDigit(b / 16)) == Some(b / 16);
    assert HexValue(HexDigit(b % 16)) == Some(b % 16);
    assert b == b / 16 * 16 + b % 16;
  }

  /** The bytes of `n` escapes at the start of `s`, if there are that many. */
  function UnescapeMany(s: string, n: nat): (r: Option<seq<Byte>>)
    ensures r.Some? ==> |r.value| == n && 3 * n <= |s|
  {
    if n == 0 then Some([])
    else
      match Unescape(s)
      case None => None
      case Some(b) =>
        match UnescapeMany(s[3..], n - 1)
        case None => None
        case Some(more) => Some([b] + more)
  }

  lemma {:induction false} UnescapeManyEscaped(bytes: seq<Byte>, rest: string)
    ensures UnescapeMany(EscapeAll(bytes) + rest, |bytes|) == Some(bytes)
    ensures (EscapeAll(bytes) + rest)[3 * |bytes|..] == rest
  {
    if bytes == [] {
      assert EscapeAll(bytes) + rest == rest;
    } else {
      hide *;
      var more := EscapeAll(bytes[1..]) + rest;
      EscapeAllStep(bytes);
      Associates(Escape(bytes[0]), EscapeAll(bytes[1..]), rest);
      UnescapeEscape(bytes[0], more);
      UnescapeManyEscaped(bytes[1..], rest);
      UnescapeManyStep(Escape(bytes[0]) + more, bytes[0], bytes[1..]);
      assert bytes == [bytes[0]] + bytes[1..];
      assert (EscapeAll(bytes) + rest)[3 * |bytes|..] == more[3 * |bytes[1..]|..];
    }
  }

  lemma EscapeAllStep(bytes: seq<Byte>)
    requires bytes != []
    ensures EscapeAll(bytes) == Escape(bytes[0]) + EscapeAll(bytes[1..])
  {
    hide Escape;
  }

  lemma UnescapeManyStep(s: string, b: Byte, more: seq<Byte>)
    requires |s| >= 3 && Unescape(s) == Some(b) && UnescapeMany(s[3..], |more|) == Some(more)
    ensures UnescapeMany(s, |more| + 1) == Some([b] + more)
  {
    hide Unescape;
  }

  // ---------- encodeURIComponent ----------

  /** `! ' ( ) *`, which `encodeURIComponent` leaves as they are. */
  predicate IsMark(c: char) {
    c == '!' || c == '\'' || c == '(' || c == ')' || c == '*'
  }

  /** Letters, digits and `- _ . ~`. */
  predicate IsPlain(c: char) {
    'A' <= c <= 'Z' || 'a' <= c <= 'z' || '0' <= c <= '9'
    || c == '-' || c == '_' || c == '.' || c == '~'
  }

  function EncodeChar(c: char): string {
    if IsPlain(c) || IsMark(c) then [c] else EscapeAll(Utf8(c))
  }

  function EncodeComponent(s: string): string {
    if s == "" then "" else EncodeChar(s[0]) + EncodeComponent(s[1..])
  }

  // ---------- decodeURIComponent ----------

  /** One character and how much text it took, or nothing where the original throws. */
  function DecodeChar(s: string): (r: Option<(char, nat)>)
    requires s != ""
    ensures r.Some? ==> 1 <= r.value.1 <= |s|
  {
    if s[0] != '%' then Some((s[0], 1))
    else
      match Unescape(s)
      case None => None
      case Some(first) =>
        var n := Utf8Length(first);
        if n == 0 then None
        else
          match UnescapeMany(s, n)
          case None => None
          case Some(bytes) =>
            match Utf8Decode(bytes)
            case None => None
            case Some(c) => Some((c, 3 * n))
  }

  function DecodeComponent(s: string): Option<string> {
    if s == "" then Some("")
    else
      match DecodeChar(s)
      case None => None
      case Some((c, n)) =>
        match DecodeComponent(s[n..])
        case None => None
        case Some(more) => Some([c] + more)
  }

  lemma DecodeEscaped(c: char, rest: string)
    ensures
      var s := EscapeAll(Utf8(c)) + rest;
      && s != "" && DecodeChar(s) == Some((c, 3 * |Utf8(c)|))
      && s[3 * |Utf8(c)|..] == rest
  {
    hide Utf8, Utf8Decode, Escape, Unescape;
    var bytes := Utf8(c);
    Utf8RoundTrip(c);
    UnescapeManyEscaped(bytes, rest);
    assert EscapeAll(bytes) + rest == Escape(bytes[0]) + (EscapeAll(bytes[1..]) + rest);
    UnescapeEscape(bytes[0], EscapeAll(bytes[1..]) + rest);
  }

  /** An encoded character in front of any text decodes to that character. */
  lemma DecodeEncodedChar(c: char, rest: string)
    ensures
      var s := EncodeChar(c) + rest;
      && s != "" && DecodeChar(s) == Some((c, |EncodeChar(c)|))
      && s[|EncodeChar(c)|..] == rest
  {
    DecodeEscaped(c, rest);
    hide Utf8, EscapeAll;
  }

  lemma {:induction false} DecodeEncode(s: string)
    ensures DecodeComponent(EncodeComponent(s)) == Some(s)
  {
    hide EncodeChar, DecodeChar, EncodeComponent, DecodeComponent;
    if s == "" {
      DecodeNothing();
    } else {
      DecodeEncode(s[1..]);
      DecodeEncodedChar(s[0], EncodeComponent(s[1..]));
      UnfoldEncode(s);
      DecodeFirst(EncodeComponent(s), s[0], |EncodeChar(s[0])|, s[1..]);
      assert s == [s[0]] + s[1..];
    }
  }

  lemma DecodeNothing()
    ensures DecodeComponent(EncodeComponent("")) == Some("")
  {}

  lemma DecodeFirst(s: string, c: char, n: nat, more: string)
    requires s != "" && DecodeChar(s) == Some((c, n)) && DecodeComponent(s[n..]) == Some(more)
    ensures DecodeComponent(s) == Some([c] + more)
  {
    hide DecodeChar;
  }

  /** Characters that are encoded or left as they are, and one of each length in UTF-8. */
  lemma EncodeVectors()
    ensures EncodeChar(' ') == "%20" && EncodeChar('/') == "%2F" && EncodeChar('a') == "a"
    ensures EncodeChar('\'') == "'" && EncodeChar('~') == "~" && EncodeChar('%') == "%25"
    ensures EncodeChar('\U{E9}') == "%C3%A9" && EncodeChar('\U{20AC}') == "%E2%82%AC"
    ensures EncodeChar('\U{1F600}') == "%F0%9F%98%80"
  {
    PlainVectors();
    TwoByteVector();
    ThreeByteVector();
    FourByteVector();
    hide *;
  }

  lemma PlainVectors()
    ensures EncodeChar(' ') == "%20" && EncodeChar('/') == "%2F" && EncodeChar('%') == "%25"
    ensures EncodeChar('a') == "a" && EncodeChar('\'') == "'" && EncodeChar('~') == "~"
  {
    OneByte(0x20);
    OneByte(0x2F);
    OneByte(0x25);
    hide EscapeAll;
  }

  lemma TwoByteVector()
    ensures EncodeChar('\U{E9}') == "%C3%A9"
  {
    EscapeTwo(0xC3, 0xA9);
    hide EscapeAll;
    assert Utf8('\U{E9}') == [0xC3, 0xA9];
  }

  lemma ThreeByteVector()
    ensures EncodeChar('\U{20AC}') == "%E2%82%AC"
  {
    EscapeAllStep([0xE2, 0x82, 0xAC]);
    EscapeTwo(0x82, 0xAC);
    hide EscapeAll;
    assert [0xE2, 0x82, 0xAC][1..] == [0x82, 0xAC];
    assert Utf8('\U{20AC}') == [0xE2, 0x82, 0xAC];
  }

  lemma FourByteVector()
    ensures EncodeChar('\U{1F600}') == "%F0%9F%98%80"
  {
    EscapeAllStep([0xF0, 0x9F, 0x98, 0x80]);
    EscapeAllStep([0x9F, 0x98, 0x80]);
    EscapeTwo(0x98, 0x80);
    FourByteText();
    hide EscapeAll, Utf8;
    assert [0xF0, 0x9F, 0x98, 0x80][1..] == [0x9F, 0x98, 0x80] && [0x9F, 0x98, 0x80][1..] == [0x98, 0x80];
  }

  lemma FourByteText()
    ensures Utf8('\U{1F600}') == [0xF0, 0x9F, 0x98, 0x80]
  {}

  lemma OneByte(b: Byte)
    ensures EscapeAll([b]) == Escape(b)
  {
    hide Escape;
    EscapeAllStep([b]);
    assert [b][1..] == [];
  }

  lemma EscapeTwo(a: Byte, b: Byte)
    ensures EscapeAll([a, b]) == Escape(a) + Escape(b)
  {
    hide Escape, EscapeAll;
    EscapeAllStep([a, b]);
    assert [a, b][1..] == [b];
    OneByte(b);
  }

  /** No two texts have the same encoding. */
  lemma EncodeInjective(a: string, b: string)
    requires EncodeComponent(a) == EncodeComponent(b)
    ensures a == b
  {
    DecodeEncode(a);
    DecodeEncode(b);
  }

  /** The characters an encoding consists of. */
  predicate IsEncodedChar(c: char) {
    IsPlain(c) || IsMark(c) || c == '%'
  }

  lemma {:induction false} EscapedCharacters(bytes: seq<Byte>)
    ensures forall i | 0 <= i < |EscapeAll(bytes)| ::
      IsPlain(EscapeAll(bytes)[i]) || EscapeAll(bytes)[i] == '%'
  {
    if bytes != [] {
      EscapedCharacters(bytes[1..]);
      assert forall i | 0 <= i < 3 :: IsPlain(Escape(bytes[0])[i]) || Escape(bytes[0])[i] == '%';
    }
  }

  lemma {:induction false} EncodedCharacters(s: string)
    ensures forall i | 0 <= i < |EncodeComponent(s)| :: IsEncodedChar(EncodeComponent(s)[i])
    ensures s != "" ==> EncodeComponent(s) != ""
  {
    if s != "" {
      EncodedCharacters(s[1..]);
      EscapedCharacters(Utf8(s[0]));
      hide Utf8, EscapeAll, EncodeComponent;
      UnfoldEncode(s);
    }
  }

  lemma UnfoldEncode(s: string)
    requires s != ""
    ensures EncodeComponent(s) == EncodeChar(s[0]) + EncodeComponent(s[1..])
    ensures EncodeChar(s[0]) != ""
  {}
}
