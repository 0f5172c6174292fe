/**
 * Which `data:` sources are images, with which bytes and media type, and the canonical form in
 * which an image is embedded (embedded-images.ts).
 */
module EmbeddedImages {
  import opened Wrappers
  import opened Strings
  import opened Json
  import opened ImageReferences
  import B = Base64

  datatype MediaType = Png | Jpeg | Gif | Webp

  const MAX_IMAGE_BYTES := 20 * 1024 * 1024

  datatype EmbeddedImage = EmbeddedImage(bytes: seq<B.Byte>, mediaType: MediaType, source: Text)

  function MimeOf(mediaType: MediaType): string {
    match mediaType
    case Png => "image/png"
    case Jpeg => "image/jpeg"
    case Gif => "image/gif"
    case Webp => "image/webp"
  }

  function DataUriPrefix(mime: string): string {
    "data:" + mime + ";base64,"
  }

  function DataUri(mime: string, bytes: seq<B.Byte>): string {
    DataUriPrefix(mime) + B.Encode(bytes)
  }

  // ---------- Recognising an image ----------

  /** `Buffer.toString("ascii")` drops the high bit of each byte. */
  function Ascii(bytes: seq<B.Byte>, from: nat, to: nat): string
    requires from <= to
  {
    var start, end := Min(from, |bytes|), Min(to, |bytes|);
    seq(end - start, i requires 0 <= i < end - start => (bytes[start + i] % 128) as char)
  }

  function Min(a: nat, b: nat): nat {
    if a < b then a else b
  }

  const PNG_SIGNATURE: seq<B.Byte> := [137, 80, 78, 71, 13, 10, 26, 10]

  predicate MatchesSignature(mediaType: MediaType, bytes: seq<B.Byte>) {
    match mediaType
    case Png => PNG_SIGNATURE <= bytes
    case Jpeg => |bytes| >= 3 && bytes[0] == 0xff && bytes[1] == 0xd8 && bytes[2] == 0xff
    case Webp => Ascii(bytes, 0, 4) == "RIFF" && Ascii(bytes, 8, 12) == "WEBP"
    case Gif => Ascii(bytes, 0, 6) == "GIF87a" || Ascii(bytes, 0, 6) == "GIF89a"
  }

  /** The media type that the start of a data URI names. */
  function NamedMediaType(uri: string): (r: Option<MediaType>)
    ensures r.Some? ==> DataUriPrefix(MimeOf(r.value)) <= uri
  {
    if DataUriPrefix("image/png") <= uri then Some(Png)
    else if DataUriPrefix("image/jpeg") <= uri then Some(Jpeg)
    else if DataUriPrefix("image/gif") <= uri then Some(Gif)
    else if DataUriPrefix("image/webp") <= uri then Some(Webp)
    else None
  }

  /** `tryParseEmbeddedImage`; text that is itself JSON does not start with `data:`. */
  function TryParseEmbeddedImage(source: Text): (r: Option<EmbeddedImage>) {
    if source.Encoded? then None
    else
      match NamedMediaType(source.chars)
      case None => None
      case Some(mediaType) =>
        var encoded := source.chars[|DataUriPrefix(MimeOf(mediaType))|..];
        if !B.IsCanonicalPayload(encoded) then None
        else
          var bytes := B.Decode(encoded);
          if |bytes| > MAX_IMAGE_BYTES || !MatchesSignature(mediaType, bytes) then None
          else Some(EmbeddedImage(bytes, mediaType, source))
  }

  /** An accepted source is rebuilt from the media type and the bytes alone. */
  lemma ParsedIsDataUri(source: Text)
    ensures
      var image := TryParseEmbeddedImage(source);
      image.Some? ==>
        && source == Plain(DataUri(MimeOf(image.value.mediaType), image.value.bytes))
        && MatchesSignature(image.value.mediaType, image.value.bytes)
        && 0 < |image.value.bytes| <= MAX_IMAGE_BYTES
  {
    hide DataUriPrefix, MimeOf, MatchesSignature, B.IsCanonicalPayload, B.Decode, B.Encode, NamedMediaType;
    var image := TryParseEmbeddedImage(source);
    if image.Some? {
      var prefix := DataUriPrefix(MimeOf(image.value.mediaType));
      var encoded := source.chars[|prefix|..];
      assert source.chars == prefix + encoded;
      PayloadIsEncoded(encoded);
    }
  }

  /** An accepted source in full. */
  lemma ParsedInFull(source: Text)
    requires TryParseEmbeddedImage(source).Some?
    ensures
      var image := TryParseEmbeddedImage(source).value;
      && 1 <= |image.bytes| <= 20 * 1024 * 1024
      && source == Plain(FullPrefix(image.mediaType) + B.Encode(image.bytes))
  {
    hide TryParseEmbeddedImage, MatchesSignature, MimeOf, DataUriPrefix, FullPrefix, B.Encode;
    ParsedIsDataUri(source);
    PrefixInFull(TryParseEmbeddedImage(source).value.mediaType);
  }

  function FullPrefix(mediaType: MediaType): string {
    match mediaType
    case Png => "data:image/png;base64,"
    case Jpeg => "data:image/jpeg;base64,"
    case Gif => "data:image/gif;base64,"
    case Webp => "data:image/webp;base64,"
  }

  lemma PrefixInFull(mediaType: MediaType)
    ensures DataUriPrefix(MimeOf(mediaType)) == FullPrefix(mediaType)
  {
    match mediaType
    case Png => assert "data:" + "image/png" + ";base64," == "data:image/png;base64,";
    case Jpeg => assert "data:" + "image/jpeg" + ";base64," == "data:image/jpeg;base64,";
    case Gif => assert "data:" + "image/gif" + ";base64," == "data:image/gif;base64,";
    case Webp => assert "data:" + "image/webp" + ";base64," == "data:image/webp;base64,";
  }

  lemma PayloadIsEncoded(encoded: string)
    requires B.IsCanonicalPayload(encoded)
    ensures B.Encode(B.Decode(encoded)) == encoded && B.Decode(encoded) != []
  {
    hide B.Decode;
    assert B.Encode([]) == "";
  }

  lemma FirstByte(mediaType: MediaType, bytes: seq<B.Byte>)
    requires MatchesSignature(mediaType, bytes)
    ensures |bytes| > 0
    ensures
      match mediaType
      case Png => bytes[0] == 137
      case Jpeg => bytes[0] == 255
      case Webp => bytes[0] % 128 == 'R' as int
      case Gif => bytes[0] % 128 == 'G' as int
  {
    match mediaType
    case Png => assert bytes[0] == PNG_SIGNATURE[0];
    case Jpeg =>
    case Webp => assert Ascii(bytes, 0, 4)[0] == 'R';
    case Gif => assert Ascii(bytes, 0, 6)[0] == 'G';
  }

  /** The bytes from `from` on, without their high bits, are these codes. */
  predicate Spelled(bytes: seq<B.Byte>, from: nat, codes: seq<int>) {
    from + |codes| <= |bytes| && forall i | 0 <= i < |codes| :: bytes[from + i] % 128 == codes[i]
  }

  /** The four signatures in numbers; all but two are compared without the high bits. */
  lemma SignaturesInFull(bytes: seq<B.Byte>)
    ensures MatchesSignature(Png, bytes)
            <==> |bytes| >= 8 && bytes[..8] == [137, 80, 78, 71, 13, 10, 26, 10]
    ensures MatchesSignature(Jpeg, bytes) <==> |bytes| >= 3 && bytes[..3] == [255, 216, 255]
    ensures MatchesSignature(Gif, bytes)
            <==> Spelled(bytes, 0, [71, 73, 70, 56, 55, 97]) || Spelled(bytes, 0, [71, 73, 70, 56, 57, 97])
    ensures MatchesSignature(Webp, bytes)
            <==> Spelled(bytes, 0, [82, 73, 70, 70]) && Spelled(bytes, 8, [87, 69, 66, 80])
  {
    AsciiIs(bytes, 0, "GIF87a", [71, 73, 70, 56, 55, 97]);
    AsciiIs(bytes, 0, "GIF89a", [71, 73, 70, 56, 57, 97]);
    AsciiIs(bytes, 0, "RIFF", [82, 73, 70, 70]);
    AsciiIs(bytes, 8, "WEBP", [87, 69, 66, 80]);
    hide Ascii, Spelled;
    if |bytes| >= 3 {
      assert bytes[..3] == [bytes[0], bytes[1], bytes[2]];
    }
  }

  lemma AsciiIs(bytes: seq<B.Byte>, from: nat, text: string, codes: seq<int>)
    requires |text| == |codes| > 0
    requires forall i | 0 <= i < |codes| :: 0 <= codes[i] < 128 && text[i] as int == codes[i]
    ensures Ascii(bytes, from, from + |codes|) == text <==> Spelled(bytes, from, codes)
  {
    var shown := Ascii(bytes, from, from + |codes|);
    if shown == text {
      assert forall i | 0 <= i < |codes| :: shown[i] == text[i];
    }
    if Spelled(bytes, from, codes) {
      assert forall i | 0 <= i < |codes| :: shown[i] == text[i];
    }
  }

  /** No bytes pass for two media types, not even with the high bits dropped. */
  lemma SignaturesDisjoint(a: MediaType, b: MediaType, bytes: seq<B.Byte>)
    requires MatchesSignature(a, bytes) && MatchesSignature(b, bytes)
    ensures a == b
  {
    FirstByte(a, bytes);
    FirstByte(b, bytes);
  }

  /** Deduplicating uploads by content never merges two different sources. */
  lemma SameBytesSameSource(a: Text, b: Text)
    requires TryParseEmbeddedImage(a).Some? && TryParseEmbeddedImage(b).Some?
    requires TryParseEmbeddedImage(a).value.bytes == TryParseEmbeddedImage(b).value.bytes
    ensures a == b
  {
    ParsedIsDataUri(a);
    ParsedIsDataUri(b);
    var x, y := TryParseEmbeddedImage(a).value, TryParseEmbeddedImage(b).value;
    SignaturesDisjoint(x.mediaType, y.mediaType, x.bytes);
  }

  /** Every supported image within the size limit is recognised in its canonical form. */
  lemma CanonicalIsParsed(mediaType: MediaType, bytes: seq<B.Byte>)
    requires MatchesSignature(mediaType, bytes) && |bytes| <= MAX_IMAGE_BYTES
    ensures
      var source := Plain(DataUri(MimeOf(mediaType), bytes));
      TryParseEmbeddedImage(source) == Some(EmbeddedImage(bytes, mediaType, source))
  {
    var prefix, encoded := DataUriPrefix(MimeOf(mediaType)), B.Encode(bytes);
    var uri := prefix + encoded;
    FirstByte(mediaType, bytes);
    B.DecodeEncode(bytes);
    assert B.Decode("") == [];
    assert uri[|prefix|..] == encoded;
    NamedByPrefix(mediaType, encoded);
  }

  lemma NamedByPrefix(mediaType: MediaType, rest: string)
    ensures NamedMediaType(DataUriPrefix(MimeOf(mediaType)) + rest) == Some(mediaType)
  {
    var uri := DataUriPrefix(MimeOf(mediaType)) + rest;
    assert DataUriPrefix(MimeOf(mediaType)) <= uri;
    assert uri[11] == MimeOf(mediaType)[6];
    if DataUriPrefix("image/png") <= uri {
      assert uri[11] == DataUriPrefix("image/png")[11];
    }
    if DataUriPrefix("image/jpeg") <= uri {
      assert uri[11] == DataUriPrefix("image/jpeg")[11];
    }
    if DataUriPrefix("image/gif") <= uri {
      assert uri[11] == DataUriPrefix("image/gif")[11];
    }
    if DataUriPrefix("image/webp") <= uri {
      assert uri[11] == DataUriPrefix("image/webp")[11];
    }
  }
}
