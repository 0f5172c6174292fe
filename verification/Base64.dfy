/**
 * Canonical base64 (sections 3.5 and 4 of RFC 4648) as the client encodes, decodes and
 * checks it, and the two validators that were written independently of each other.
 */
module Base64 {
  type Byte = b: int | 0 <= b < 256
  type Sextet = v: int | 0 <= v < 64

  predicate InAlphabet(c: char) {
    'A' <= c <= 'Z' || 'a' <= c <= 'z' || '0' <= c <= '9' || c == '+' || c == '/'
  }

  function CharOf(v: Sextet): (c: char)
    ensures InAlphabet(c)
  {
    if v < 26 then 'A' + v as char
    else if v < 52 then 'a' + (v - 26) as char
    else if v < 62 then '0' + (v - 52) as char
    else if v == 62 then '+'
    else '/'
  }

  function ValueOf(c: char): (v: Sextet)
    requires InAlphabet(c)
    ensures CharOf(v) == c
  {
    if 'A' <= c <= 'Z' then c as int - 'A' as int
    else if 'a' <= c <= 'z' then c as int - 'a' as int + 26
    else if '0' <= c <= '9' then c as int - '0' as int + 52
    else if c == '+' then 62
    else 63
  }

  lemma ValueOfCharOf(v: Sextet)
    ensures ValueOf(CharOf(v)) == v
  {}

  predicate AllInAlphabet(s: string) {
    forall i | 0 <= i < |s| :: InAlphabet(s[i])
  }

  // ---------- Buffer.toString("base64") ----------

  function Encode(bytes: seq<Byte>): (s: string)
    ensures |s| % 4 == 0
  {
    hide EncodeOne, EncodeTwo, EncodeBlock;
    if |bytes| == 0 then ""
    else if |bytes| == 1 then EncodeOne(bytes[0])
    else if |bytes| == 2 then EncodeTwo(bytes[0], bytes[1])
    else
      var more := Encode(bytes[3..]);
      FourMore(|more|);
      EncodeBlock(bytes[0], bytes[1], bytes[2]) + more
  }

  lemma FourMore(n: nat)
    requires n % 4 == 0
    ensures (4 + n) % 4 == 0
  {}

  function EncodeOne(a: Byte): (s: string)
    ensures |s| == 4
  {
    [CharOf(a / 4), CharOf(a % 4 * 16), '=', '=']
  }

  function EncodeTwo(a: Byte, b: Byte): (s: string)
    ensures |s| == 4
  {
    [CharOf(a / 4), CharOf(a % 4 * 16 + b / 16), CharOf(b % 16 * 4), '=']
  }

  function EncodeBlock(a: Byte, b: Byte, c: Byte): (s: string)
    ensures |s| == 4
  {
    [CharOf(a / 4), CharOf(a % 4 * 16 + b / 16), CharOf(b % 16 * 4 + c / 64), CharOf(c % 64)]
  }

  /** The two regroupings of 24 bits, 8 by 8 and 6 by 6, undo each other. */
  lemma Regroup(a: Byte, b: Byte, c: Byte)
    ensures a / 4 * 4 + (a % 4 * 16 + b / 16) / 16 == a
    ensures (a % 4 * 16 + b / 16) % 16 * 16 + (b % 16 * 4 + c / 64) / 4 == b
    ensures (b % 16 * 4 + c / 64) % 4 * 64 + c % 64 == c
  {
    var high, low := a % 4, b / 16;
    assert (high * 16 + low) / 16 == high && (high * 16 + low) % 16 == low;
    var mid, top := b % 16, c / 64;
    assert (mid * 4 + top) / 4 == mid && (mid * 4 + top) % 4 == top;
  }

  // ---------- Buffer.from(text, "base64") ----------

  /** The two patterns guard every call, so at most two `=` and only at the end. */
  predicate LoosePattern(s: string) {
    AllInAlphabet(StripPadding(s))
  }

  function StripPadding(s: string): (digits: string)
    ensures digits <= s
    ensures |s| - 2 <= |digits|
  {
    if |s| >= 2 && s[|s| - 1] == '=' && s[|s| - 2] == '=' then s[..|s| - 2]
    else if |s| >= 1 && s[|s| - 1] == '=' then s[..|s| - 1]
    else s
  }

  /** Bits that do not fill a whole byte are dropped, whatever their value. */
  function DecodeDigits(d: string): seq<Byte>
    requires AllInAlphabet(d)
  {
    if |d| >= 4 then
      DecodeBlock(d[0], d[1], d[2], d[3]) + DecodeDigits(d[4..])
    else if |d| == 3 then
      [ValueOf(d[0]) * 4 + ValueOf(d[1]) / 16, ValueOf(d[1]) % 16 * 16 + ValueOf(d[2]) / 4]
    else if |d| == 2 then
      [ValueOf(d[0]) * 4 + ValueOf(d[1]) / 16]
    else
      []
  }

  function DecodeBlock(a: char, b: char, c: char, d: char): (bytes: seq<Byte>)
    requires InAlphabet(a) && InAlphabet(b) && InAlphabet(c) && InAlphabet(d)
    ensures |bytes| == 3
  {
    [ValueOf(a) * 4 + ValueOf(b) / 16,
     ValueOf(b) % 16 * 16 + ValueOf(c) / 4,
     ValueOf(c) % 4 * 64 + ValueOf(d)]
  }

  function Decode(s: string): seq<Byte>
    requires LoosePattern(s)
  {
    DecodeDigits(StripPadding(s))
  }

  // ---------- The two validators ----------

  /** `^(?:[A-Za-z0-9+/]{4})*(?:[A-Za-z0-9+/]{2}==|[A-Za-z0-9+/]{3}=)?$` */
  predicate StrictPattern(s: string) {
    if |s| == 0 then true
    else if |s| < 4 then false
    else if AllInAlphabet(s[..4]) then StrictPattern(s[4..])
    else |s| == 4 && s[3] == '=' && InAlphabet(s[0]) && InAlphabet(s[1])
         && (InAlphabet(s[2]) || s[2] == '=')
  }

  lemma {:induction false} StrictIsLoose(s: string)
    requires StrictPattern(s)
    ensures LoosePattern(s)
  {
    if |s| == 0 {
    } else if AllInAlphabet(s[..4]) {
      assert s == s[..4] + s[4..];
      if |s| > 4 {
        StrictIsLoose(s[4..]);
        assert StripPadding(s) == s[..4] + StripPadding(s[4..]);
      } else {
        assert StripPadding(s) == s == s[..4];
      }
    }
  }

  /** The wire decoder's validator, `isBase64` of runtime-source.ts. */
  predicate IsBase64(s: string) {
    if s == "" then true
    else if |s| % 4 != 0 || !StrictPattern(s) then false
    else
      StrictIsLoose(s);
      Encode(Decode(s)) == s
  }

  /** The payload test of an image data URI: `tryParseEmbeddedImage` with `isCanonicalBase64`. */
  predicate IsCanonicalPayload(s: string) {
    LoosePattern(s) && |s| != 0 && |s| % 4 == 0 && Encode(Decode(s)) == s
  }

  // ---------- Properties ----------

  lemma DecodeEncodeBlock(a: Byte, b: Byte, c: Byte)
    ensures
      var s := EncodeBlock(a, b, c);
      DecodeBlock(s[0], s[1], s[2], s[3]) == [a, b, c]
  {
    Regroup(a, b, c);
    ValueOfCharOf(a / 4);
    ValueOfCharOf(a % 4 * 16 + b / 16);
    ValueOfCharOf(b % 16 * 4 + c / 64);
    ValueOfCharOf(c % 64);
  }

  lemma DecodeEncodeOne(a: Byte)
    ensures LoosePattern(Encode([a])) && Decode(Encode([a])) == [a]
  {
    Regroup(a, 0, 0);
    ValueOfCharOf(a / 4);
    ValueOfCharOf(a % 4 * 16);
    assert StripPadding(Encode([a])) == [CharOf(a / 4), CharOf(a % 4 * 16)];
  }

  /** Three digits and one `=` hold two bytes. */
  lemma DecodeThree(x: Sextet, y: Sextet, z: Sextet)
    ensures
      var s := [CharOf(x), CharOf(y), CharOf(z), '='];
      LoosePattern(s) && Decode(s) == [x * 4 + y / 16, y % 16 * 16 + z / 4]
  {
    ValueOfCharOf(x);
    ValueOfCharOf(y);
    ValueOfCharOf(z);
    hide CharOf, ValueOf;
    assert StripPadding([CharOf(x), CharOf(y), CharOf(z), '=']) == [CharOf(x), CharOf(y), CharOf(z)];
  }

  lemma DecodeEncodeTwo(a: Byte, b: Byte)
    ensures LoosePattern(Encode([a, b])) && Decode(Encode([a, b])) == [a, b]
  {
    hide Decode, LoosePattern, CharOf;
    Regroup(a, b, 0);
    DecodeThree(a / 4, a % 4 * 16 + b / 16, b % 16 * 4);
  }

  lemma {:induction false} EncodedIsStrict(bytes: seq<Byte>)
    ensures StrictPattern(Encode(bytes))
  {
    if |bytes| >= 3 {
      EncodedIsStrict(bytes[3..]);
      var s := Encode(bytes);
      assert s[..4] == EncodeBlock(bytes[0], bytes[1], bytes[2]);
      assert s[4..] == Encode(bytes[3..]);
    }
  }

  lemma StripBehind(block: string, rest: string)
    requires |block| == 4 && AllInAlphabet(block)
    requires |rest| % 4 == 0
    ensures StripPadding(block + rest) == block + StripPadding(rest)
  {
    var s := block + rest;
    if rest == "" {
      assert InAlphabet(block[3]);
      assert s == block;
    } else {
      assert s[|s| - 1] == rest[|rest| - 1] && s[|s| - 2] == rest[|rest| - 2];
    }
  }

  /** A leading block of four digits is decoded on its own. */
  lemma DecodeBehind(block: string, rest: string)
    requires |block| == 4 && AllInAlphabet(block)
    requires |rest| % 4 == 0 && LoosePattern(rest)
    ensures LoosePattern(block + rest)
    ensures Decode(block + rest)
            == DecodeBlock(block[0], block[1], block[2], block[3]) + Decode(rest)
  {
    StripBehind(block, rest);
    var digits := block + StripPadding(rest);
    assert digits[4..] == StripPadding(rest);
    assert digits[..4] == block;
  }

  lemma EncodeUnfold(bytes: seq<Byte>)
    requires |bytes| >= 3
    ensures Encode(bytes) == EncodeBlock(bytes[0], bytes[1], bytes[2]) + Encode(bytes[3..])
    ensures AllInAlphabet(EncodeBlock(bytes[0], bytes[1], bytes[2]))
  {
    hide EncodeBlock, EncodeOne, EncodeTwo, AllInAlphabet;
    BlockInAlphabet(bytes[0], bytes[1], bytes[2]);
  }

  lemma BlockInAlphabet(a: Byte, b: Byte, c: Byte)
    ensures AllInAlphabet(EncodeBlock(a, b, c))
  {
    hide CharOf, InAlphabet;
  }

  lemma DecodeEncodeStep(bytes: seq<Byte>)
    requires |bytes| >= 3
    requires LoosePattern(Encode(bytes[3..])) && Decode(Encode(bytes[3..])) == bytes[3..]
    ensures LoosePattern(Encode(bytes)) && Decode(Encode(bytes)) == bytes
  {
    hide *;
    var a, b, c := bytes[0], bytes[1], bytes[2];
    EncodeUnfold(bytes);
    DecodeEncodeBlock(a, b, c);
    DecodeBehind(EncodeBlock(a, b, c), Encode(bytes[3..]));
    assert bytes == [a, b, c] + bytes[3..];
  }

  /** Nothing is lost by encoding. */
  lemma {:induction false} DecodeEncode(bytes: seq<Byte>)
    ensures LoosePattern(Encode(bytes))
    ensures Decode(Encode(bytes)) == bytes
  {
    if |bytes| >= 3 {
      DecodeEncode(bytes[3..]);
      DecodeEncodeStep(bytes);
    } else if |bytes| == 2 {
      DecodeEncodeTwo(bytes[0], bytes[1]);
      assert bytes == [bytes[0], bytes[1]];
    } else if |bytes| == 1 {
      DecodeEncodeOne(bytes[0]);
      assert bytes == [bytes[0]];
    }
  }

  /** The wire validator accepts exactly the encodings of byte sequences. */
  lemma IsBase64Exact(s: string)
    ensures IsBase64(s) <==> exists bytes: seq<Byte> :: Encode(bytes) == s
  {
    if IsBase64(s) {
      if s == "" {
        assert Encode([]) == s;
      } else {
        StrictIsLoose(s);
        assert Encode(Decode(s)) == s;
      }
    }
    if exists bytes: seq<Byte> :: Encode(bytes) == s {
      var bytes: seq<Byte> :| Encode(bytes) == s;
      EncodedIsStrict(bytes);
      DecodeEncode(bytes);
    }
  }

  /** Written apart, the two validators agree wherever an image payload may stand. */
  lemma ValidatorsAgree(s: string)
    requires s != ""
    ensures IsBase64(s) <==> IsCanonicalPayload(s)
  {
    if IsBase64(s) {
      StrictIsLoose(s);
    }
    if IsCanonicalPayload(s) {
      EncodedIsStrict(Decode(s));
    }
  }

  /** No two accepted texts decode to the same bytes. */
  lemma DecodeInjective(s: string, t: string)
    requires IsBase64(s) && IsBase64(t)
    requires LoosePattern(s) && LoosePattern(t)
    requires Decode(s) == Decode(t)
    ensures s == t
  {
    assert Encode(Decode("")) == "";
  }

  lemma BlockVectors()
    ensures EncodeBlock(0x66, 0x6F, 0x6F) == "Zm9v" && EncodeBlock(0x62, 0x61, 0x72) == "YmFy"
    ensures EncodeOne(0x66) == "Zg==" && EncodeTwo(0x66, 0x6F) == "Zm8="
  {}

  lemma EncodeShort(a: Byte, b: Byte)
    ensures Encode([]) == "" && Encode([a]) == EncodeOne(a) && Encode([a, b]) == EncodeTwo(a, b)
  {
    hide EncodeOne, EncodeTwo, EncodeBlock;
  }

  /** The test vectors of section 10 of RFC 4648. */
  lemma EncodeVectors()
    ensures Encode([0x66]) == "Zg==" && Encode([0x66, 0x6F]) == "Zm8=" && Encode([0x66, 0x6F, 0x6F]) == "Zm9v"
    ensures Encode([0x66, 0x6F, 0x6F, 0x62, 0x61, 0x72]) == "Zm9vYmFy"
  {
    hide *;
    var foo, bar, foobar: seq<Byte> :=
      [0x66, 0x6F, 0x6F], [0x62, 0x61, 0x72], [0x66, 0x6F, 0x6F, 0x62, 0x61, 0x72];
    BlockVectors();
    EncodeShort(0x66, 0x6F);
    EncodeUnfold(foo);
    EncodeUnfold(bar);
    EncodeUnfold(foobar);
    assert foo[3..] == [] && bar[3..] == [] && foobar[3..] == bar;
    assert "Zm9v" + "" == "Zm9v" && "YmFy" + "" == "YmFy" && "Zm9v" + "YmFy" == "Zm9vYmFy";
  }
}
