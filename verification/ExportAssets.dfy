/**
 * The assets that an export accepts and how it inlines them, in literal terms: five media types
 * under any spelling, a bounded size, and a stated length that is true (export-images.ts).
 */
module ExportAssets {
  import opened Wrappers
  import opened Sequences
  import opened Strings
  import opened Json
  import opened EmbeddedImages
  import B = Base64

  datatype Asset = Asset(mediaType: string, bytes: seq<B.Byte>, contentLength: Option<nat>)

  function NormalizedMediaType(mediaType: string): string {
    ToLower(Trim(Before(mediaType, ';')))
  }

  predicate ExportableMediaType(mime: string) {
    mime in {"image/png", "image/jpeg", "image/gif", "image/webp", "image/svg+xml"}
  }

  predicate ValidAsset(asset: Asset) {
    && ExportableMediaType(NormalizedMediaType(asset.mediaType))
    && 0 < |asset.bytes| <= MAX_IMAGE_BYTES
    && (asset.contentLength.Some? ==> asset.contentLength.value == |asset.bytes|)
  }

  function InlineSource(asset: Asset): Text {
    Plain(DataUri(NormalizedMediaType(asset.mediaType), asset.bytes))
  }

  // ---------- Spelling a media type ----------

  predicate AllSpace(s: string) {
    forall i | 0 <= i < |s| :: IsSpace(s[i])
  }

  /** The same letters, each in either case. */
  predicate SameLetters(shown: string, mime: string) {
    && |shown| == |mime|
    && forall i | 0 <= i < |mime| ::
         shown[i] == mime[i]
         || ('a' <= mime[i] <= 'z' && shown[i] as int == mime[i] as int - 32)
  }

  /** White space, the media type in any letter case, white space, and parameters if there are any. */
  predicate Spells(mediaType: string, mime: string, before: string, shown: string, behind: string,
                   parameters: string) {
    && mediaType == before + shown + behind + parameters
    && AllSpace(before) && AllSpace(behind) && SameLetters(shown, mime)
    && (parameters == "" || parameters[0] == ';')
  }

  ghost predicate Names(mediaType: string, mime: string) {
    exists before, shown, behind, parameters ::
      Spells(mediaType, mime, before, shown, behind, parameters)
  }

  predicate IsMimeChar(c: char) {
    'a' <= c <= 'z' || c == '/' || c == '+'
  }

  predicate IsMime(mime: string) {
    mime != "" && forall i | 0 <= i < |mime| :: IsMimeChar(mime[i])
  }

  lemma ExportableIsMime(mime: string)
    requires ExportableMediaType(mime)
    ensures IsMime(mime)
  {}

  lemma LowerExactly(shown: string, mime: string)
    requires IsMime(mime)
    ensures ToLower(shown) == mime <==> SameLetters(shown, mime)
  {
    if SameLetters(shown, mime) {
      assert forall i | 0 <= i < |mime| :: IsMimeChar(mime[i]);
      assert forall i | 0 <= i < |mime| :: ToLower(shown)[i] == mime[i];
    }
    if ToLower(shown) == mime {
      assert forall i | 0 <= i < |mime| :: ToLower(shown)[i] == mime[i] && IsMimeChar(mime[i]);
    }
  }

  lemma {:induction false} BeforeParts(front: string, rest: string)
    requires ';' !in front && (rest == "" || rest[0] == ';')
    ensures Before(front + rest, ';') == front
  {
    if front == "" {
      assert front + rest == rest;
    } else {
      BeforeParts(front[1..], rest);
      assert (front + rest)[1..] == front[1..] + rest;
    }
  }

  lemma {:induction false} BehindBefore(s: string) returns (rest: string)
    ensures s == Before(s, ';') + rest && (rest == "" || rest[0] == ';')
  {
    if s == "" || s[0] == ';' {
      rest := s;
    } else {
      rest := BehindBefore(s[1..]);
      assert s == [s[0]] + s[1..];
    }
  }

  lemma {:induction false} TrimStartParts(s: string) returns (before: string)
    ensures AllSpace(before) && s == before + TrimStart(s)
  {
    hide IsSpace;
    if s != "" && IsSpace(s[0]) {
      var more := TrimStartParts(s[1..]);
      before := [s[0]] + more;
      Associates([s[0]], more, TrimStart(s[1..]));
      assert s == [s[0]] + s[1..];
    } else {
      before := "";
    }
  }

  lemma {:induction false} TrimEndParts(s: string) returns (behind: string)
    ensures AllSpace(behind) && s == TrimEnd(s) + behind
    decreases |s|
  {
    hide IsSpace;
    if s != "" && IsSpace(s[|s| - 1]) {
      var more := TrimEndParts(s[..|s| - 1]);
      behind := more + [s[|s| - 1]];
      Associates(TrimEnd(s[..|s| - 1]), more, [s[|s| - 1]]);
      assert s == s[..|s| - 1] + [s[|s| - 1]];
    } else {
      behind := "";
    }
  }

  lemma {:induction false} TrimStartSkips(before: string, rest: string)
    requires AllSpace(before) && rest != "" && !IsSpace(rest[0])
    ensures TrimStart(before + rest) == rest
  {
    hide IsSpace;
    if before == "" {
      assert before + rest == rest;
    } else {
      assert before[0] == (before + rest)[0] && IsSpace(before[0]);
      assert (before + rest)[1..] == before[1..] + rest;
      TrimStartSkips(before[1..], rest);
    }
  }

  lemma {:induction false} TrimEndSkips(front: string, behind: string)
    requires AllSpace(behind) && front != "" && !IsSpace(front[|front| - 1])
    ensures TrimEnd(front + behind) == front
    decreases |behind|
  {
    hide IsSpace;
    if behind == "" {
      assert front + behind == front;
    } else {
      var last := |behind| - 1;
      assert (front + behind)[|front + behind| - 1] == behind[last] && IsSpace(behind[last]);
      assert (front + behind)[..|front + behind| - 1] == front + behind[..last];
      TrimEndSkips(front, behind[..last]);
    }
  }

  lemma ShownIsTrimmed(shown: string, mime: string)
    requires IsMime(mime) && SameLetters(shown, mime)
    ensures shown != "" && !IsSpace(shown[0]) && !IsSpace(shown[|shown| - 1]) && ';' !in shown
  {
    assert IsMimeChar(mime[0]) && IsMimeChar(mime[|mime| - 1]);
    assert forall i | 0 <= i < |shown| :: IsMimeChar(mime[i]) && shown[i] != ';';
  }

  /** A media type is read as this one exactly when it spells it. */
  lemma ReadAsExactly(mediaType: string, mime: string)
    requires IsMime(mime)
    ensures NormalizedMediaType(mediaType) == mime <==> Names(mediaType, mime)
  {
    hide TrimStart, TrimEnd, ToLower, SameLetters, IsMime, AllSpace, Before;
    if NormalizedMediaType(mediaType) == mime {
      var front := Before(mediaType, ';');
      var rest := BehindBefore(mediaType);
      var before := TrimStartParts(front);
      var behind := TrimEndParts(TrimStart(front));
      LowerExactly(Trim(front), mime);
      SpelledOut(mediaType, front, rest, before, Trim(front), behind);
      assert Spells(mediaType, mime, before, Trim(front), behind, rest);
    }
    if Names(mediaType, mime) {
      var before, shown, behind, parameters :| Spells(mediaType, mime, before, shown, behind, parameters);
      SpelledIsRead(mediaType, mime, before, shown, behind, parameters);
    }
  }

  lemma SpelledOut(mediaType: string, front: string, rest: string, before: string, shown: string,
                   behind: string)
    requires mediaType == front + rest && front == before + (shown + behind)
    ensures mediaType == before + shown + behind + rest
  {}

  lemma SpelledIsRead(mediaType: string, mime: string, before: string, shown: string, behind: string,
                      parameters: string)
    requires IsMime(mime) && Spells(mediaType, mime, before, shown, behind, parameters)
    ensures NormalizedMediaType(mediaType) == mime
  {
    hide TrimStart, TrimEnd, ToLower, SameLetters, IsMime, Before;
    ShownIsTrimmed(shown, mime);
    LowerExactly(shown, mime);
    NoSemicolon(before);
    NoSemicolon(behind);
    BeforeParts(before + shown + behind, parameters);
    assert before + shown + behind == before + (shown + behind);
    hide AllSpace;
    assert (shown + behind)[0] == shown[0];
    TrimStartSkips(before, shown + behind);
    TrimEndSkips(shown, behind);
  }

  lemma NoSemicolon(s: string)
    requires AllSpace(s)
    ensures ';' !in s
  {}

  // ---------- What is accepted ----------

  /** The assets an export accepts under this media type. */
  ghost predicate Accepts(asset: Asset, mime: string) {
    && (mime == "image/png" || mime == "image/jpeg" || mime == "image/gif" || mime == "image/webp"
        || mime == "image/svg+xml")
    && Names(asset.mediaType, mime)
    && 1 <= |asset.bytes| <= 20 * 1024 * 1024
    && (asset.contentLength == None || asset.contentLength == Some(|asset.bytes|))
  }

  ghost predicate Accepted(asset: Asset) {
    exists mime: string :: Accepts(asset, mime)
  }

  /** An asset is inlined exactly when it is accepted, and then as the data URI of its bytes. */
  lemma AcceptedExactly(asset: Asset)
    ensures ValidAsset(asset) <==> Accepted(asset)
    ensures forall mime | Accepts(asset, mime) ::
              InlineSource(asset) == Plain("data:" + mime + ";base64," + B.Encode(asset.bytes))
  {
    hide NormalizedMediaType, Names, IsMime, ToLower, Trim, Before;
    forall mime | ExportableMediaType(mime)
      ensures NormalizedMediaType(asset.mediaType) == mime <==> Names(asset.mediaType, mime)
    {
      ExportableIsMime(mime);
      ReadAsExactly(asset.mediaType, mime);
    }
    if ValidAsset(asset) {
      assert Accepts(asset, NormalizedMediaType(asset.mediaType));
    }
    forall mime | Accepts(asset, mime)
      ensures ValidAsset(asset)
      ensures InlineSource(asset) == Plain("data:" + mime + ";base64," + B.Encode(asset.bytes))
    {
      assert ExportableMediaType(mime);
    }
  }
}
