/**
 * Printing a message and scanning it again: the label, the encoding of the identities and the
 * address are all undone, and nothing of any text is lost.
 */
module PathReferenceScan {
  import opened Wrappers
  import opened Sequences
  import opened Strings
  import opened Percent
  import opened PathReferences

  // ---------- Nothing is lost ----------

  function Sources(parts: seq<Part>): string {
    if parts == [] then "" else parts[0].source + Sources(parts[1..])
  }

  lemma {:induction false} SourcesConcat(a: seq<Part>, b: seq<Part>)
    ensures Sources(a + b) == Sources(a) + Sources(b)
  {
    if a == [] {
      assert a + b == b;
    } else {
      hide *;
      SourcesConcat(a[1..], b);
      SourcesStep(a);
      SourcesStep(a + b);
      FirstOfConcat(a, b);
      Associates(a[0].source, Sources(a[1..]), Sources(b));
    }
  }

  lemma SourcesStep(parts: seq<Part>)
    requires parts != []
    ensures Sources(parts) == parts[0].source + Sources(parts[1..])
  {
  }

  lemma SourcesOne(part: Part)
    ensures Sources([part]) == part.source
  {
    assert Sources([part][1..]) == "";
  }

  /** Whatever the text, its parts put together are the text again. */
  lemma ScanLosesNothing(text: string)
    ensures Sources(Scan(text)) == text
  {
    ScanFromLosesNothing(text, "");
  }

  lemma {:induction false} ScanFromLosesNothing(s: string, gap: string)
    ensures Sources(ScanFrom(s, gap)) == gap + s
    decreases |s|
  {
    hide MatchAt, NodeOf, ScanFrom, Sources, Gap;
    if s == "" {
      ScanNothing(gap);
      GapSource(gap);
      assert gap + s == gap;
    } else if MatchAt(s).Some? {
      ScanFound(s, gap);
      var found := MatchAt(s).value;
      var part := Part(s[..|s| - |found.rest|], NodeOf(found));
      ScanFromLosesNothing(found.rest, "");
      assert "" + found.rest == found.rest && s[0..] == s;
      RestIsSuffix(s, 0);
      PutTogether(gap, part, ScanFrom(found.rest, ""), found.rest);
    } else {
      ScanOn(s, gap);
      ScanFromLosesNothing(s[1..], gap + [s[0]]);
      Associates(gap, [s[0]], s[1..]);
      assert [s[0]] + s[1..] == s;
    }
  }

  lemma PutTogether(gap: string, part: Part, parts: seq<Part>, rest: string)
    requires Sources(parts) == rest
    ensures Sources(Gap(gap) + [part] + parts) == gap + (part.source + rest)
  {
    hide Sources, Gap;
    SourcesConcat(Gap(gap) + [part], parts);
    SourcesConcat(Gap(gap), [part]);
    GapSource(gap);
    SourcesOne(part);
    Associates(gap, part.source, rest);
  }

  lemma GapSource(gap: string)
    ensures Sources(Gap(gap)) == gap
  {
    if gap != "" {
      SourcesOne(Part(gap, Plain));
    }
  }

  lemma ScanOn(s: string, gap: string)
    requires s != "" && MatchAt(s).None?
    ensures ScanFrom(s, gap) == ScanFrom(s[1..], gap + [s[0]])
  {
    hide MatchAt, NodeOf;
  }

  // ---------- Labels ----------

  function EscapeLabelChar(c: char): string {
    if c == '\\' then "\\\\" else if c == ']' then "\\]" else [c]
  }

  lemma {:induction false} ReplaceAllConcat(a: string, b: string, c: char, text: string)
    ensures ReplaceAll(a + b, c, text) == ReplaceAll(a, c, text) + ReplaceAll(b, c, text)
  {
    if a == "" {
      assert a + b == b;
    } else {
      hide *;
      ReplaceAllConcat(a[1..], b, c, text);
      ReplaceAllStep(a, c, text);
      ReplaceAllStep(a + b, c, text);
      FirstOfConcat(a, b);
      Associates(if a[0] == c then text else [a[0]], ReplaceAll(a[1..], c, text), ReplaceAll(b, c, text));
    }
  }

  lemma ReplaceAllStep(s: string, c: char, text: string)
    requires s != ""
    ensures ReplaceAll(s, c, text)
            == (if s[0] == c then text else [s[0]]) + ReplaceAll(s[1..], c, text)
  {
  }

  lemma ReplaceAllOne(c: char, text: string, d: char)
    ensures ReplaceAll([d], c, text) == if d == c then text else [d]
  {
    assert ReplaceAll([d][1..], c, text) == "";
  }

  /** The two replacements work character by character. */
  lemma EscapeLabelStep(name: string)
    requires name != ""
    ensures EscapeLabel(name) == EscapeLabelChar(name[0]) + EscapeLabel(name[1..])
  {
    var c := name[0];
    var first := ReplaceAll([c], '\\', "\\\\");
    assert name == [c] + name[1..];
    ReplaceAllConcat([c], name[1..], '\\', "\\\\");
    ReplaceAllConcat(first, ReplaceAll(name[1..], '\\', "\\\\"), ']', "\\]");
    ReplaceAllOne('\\', "\\\\", c);
    ReplaceAllOne(']', "\\]", c);
    if c == '\\' {
      assert "\\\\" == "\\" + "\\";
      ReplaceAllConcat("\\", "\\", ']', "\\]");
    }
  }

  lemma {:induction false} LabelRoundTrip(name: string)
    ensures UnescapeLabel(EscapeLabel(name)) == name
    ensures name != "" ==> EscapeLabel(name) != ""
  {
    if name != "" {
      var more := EscapeLabel(name[1..]);
      LabelRoundTrip(name[1..]);
      EscapeLabelStep(name);
      hide EscapeLabel;
      assert EscapeLabel(name)[|EscapeLabelChar(name[0])|..] == more;
      assert name == [name[0]] + name[1..];
    }
  }

  lemma LabelCharIsMatched(c: char, rest: string, caption: string)
    requires c != '\n' && MatchLabel(rest, caption + EscapeLabelChar(c)).Some?
    ensures MatchLabel(EscapeLabelChar(c) + rest, caption) == MatchLabel(rest, caption + EscapeLabelChar(c))
  {
    hide MatchTail;
    var first := EscapeLabelChar(c);
    var s := first + rest;
    assert s[|first|..] == rest && s[..|first|] == first;
  }

  lemma LabelEndIsMatched(tail: string, caption: string)
    requires tail != "" && tail[0] == ']' && caption != ""
    ensures MatchLabel(tail, caption) == MatchTail(tail, caption)
  {
    hide MatchTail;
  }

  /** A printed label is matched to its end at the first attempt. */
  lemma {:induction false} LabelIsMatched(name: string, caption: string, tail: string)
    requires '\n' !in name && tail != "" && tail[0] == ']'
    requires caption + EscapeLabel(name) != ""
    requires MatchTail(tail, caption + EscapeLabel(name)).Some?
    ensures MatchLabel(EscapeLabel(name) + tail, caption) == MatchTail(tail, caption + EscapeLabel(name))
    decreases |name|
  {
    hide MatchTail, MatchLabel;
    if name == "" {
      assert EscapeLabel(name) + tail == tail && caption + EscapeLabel(name) == caption;
      LabelEndIsMatched(tail, caption);
    } else {
      EscapeLabelStep(name);
      hide EscapeLabel, EscapeLabelChar;
      var first, more := EscapeLabelChar(name[0]), EscapeLabel(name[1..]);
      Associates(first, more, tail);
      Associates(caption, first, more);
      LabelIsMatched(name[1..], caption + first, tail);
      LabelCharIsMatched(name[0], more + tail, caption);
    }
  }

  // ---------- Identities ----------

  /** The characters of a printed identity. */
  predicate IsIdentityChar(c: char) {
    IsPlain(c) || c == '%'
  }

  predicate IsIdentity(s: string) {
    forall i | 0 <= i < |s| :: IsIdentityChar(s[i])
  }

  lemma {:induction false} EscapeMarksConcat(a: string, b: string)
    ensures EscapeMarks(a + b) == EscapeMarks(a) + EscapeMarks(b)
  {
    if a == "" {
      assert a + b == b;
    } else {
      hide *;
      EscapeMarksConcat(a[1..], b);
      EscapeMarksStep(a);
      EscapeMarksStep(a + b);
      FirstOfConcat(a, b);
      Associates(EscapedMarkOf(a[0]), EscapeMarks(a[1..]), EscapeMarks(b));
    }
  }

  function EscapedMarkOf(c: char): string {
    if IsMark(c) then Escape(c as int) else [c]
  }

  lemma EscapeMarksStep(s: string)
    requires s != ""
    ensures EscapeMarks(s) == EscapedMarkOf(s[0]) + EscapeMarks(s[1..])
  {
    hide Escape;
  }

  lemma {:induction false} EscapeMarksStays(s: string)
    requires IsIdentity(s)
    ensures EscapeMarks(s) == s
  {
    if s != "" {
      EscapeMarksStays(s[1..]);
      assert IsIdentityChar(s[0]);
    }
  }

  /** One printed character: what `encodeURIComponent` gives, or an escape for a mark. */
  lemma EscapedChar(c: char)
    ensures EscapeMarks(EncodeChar(c)) == (if IsPlain(c) then [c] else EscapeAll(Utf8(c)))
    ensures IsIdentity(EscapeMarks(EncodeChar(c)))
  {
    EscapedCharacters(Utf8(c));
    if IsMark(c) {
      EscapedMark(c);
    } else {
      hide Utf8, EscapeAll;
      EscapeMarksStays(EncodeChar(c));
    }
  }

  lemma EscapedMark(c: char)
    requires IsMark(c)
    ensures EscapeMarks([c]) == EscapeAll(Utf8(c))
    ensures !IsPlain(c) && EncodeChar(c) == [c]
  {
    hide Escape;
    assert EscapeMarks([c][1..]) == "";
    assert Utf8(c) == [c as int];
    assert EscapeAll(Utf8(c)[1..]) == "";
  }

  lemma {:induction false} IdentityRoundTrip(s: string)
    ensures DecodeComponent(EncodeIdentity(s)) == Some(s)
    ensures IsIdentity(EncodeIdentity(s))
    ensures s != "" ==> EncodeIdentity(s) != ""
  {
    if s != "" {
      var first, more := EscapeMarks(EncodeChar(s[0])), EncodeIdentity(s[1..]);
      IdentityRoundTrip(s[1..]);
      UnfoldEncode(s);
      EscapeMarksConcat(EncodeChar(s[0]), EncodeComponent(s[1..]));
      EscapedChar(s[0]);
      assert EncodeIdentity(s) == first + more;
      DecodeFirst(s[0], more);
      hide EncodeIdentity, EscapeMarks, DecodeChar, EscapeAll, Utf8;
      assert s == [s[0]] + s[1..];
    }
  }

  lemma DecodeFirst(c: char, more: string)
    ensures
      var first := if IsPlain(c) then [c] else EscapeAll(Utf8(c));
      && first != "" && DecodeChar(first + more) == Some((c, |first|))
      && (first + more)[|first|..] == more
  {
    DecodeEscaped(c, more);
    hide EscapeAll, Utf8;
  }

  // ---------- Addresses ----------

  lemma {:induction false} BeforeStop(a: string, c: char, rest: string)
    requires c !in a
    ensures Before(a + [c] + rest, c) == a
    ensures Behind(a + [c] + rest, c) == Some(rest)
  {
    var s := a + [c] + rest;
    if a != "" {
      BeforeStop(a[1..], c, rest);
      assert s[1..] == a[1..] + [c] + rest;
    }
    assert s[|a| + 1..] == rest;
  }

  lemma {:induction false} BeforeAll(s: string, c: char)
    requires c !in s
    ensures Before(s, c) == s && Behind(s, c) == None
  {
    if s != "" {
      BeforeAll(s[1..], c);
    }
  }

  lemma {:induction false} ReplaceNothing(s: string, c: char, text: string)
    requires c !in s
    ensures ReplaceAll(s, c, text) == s
  {
    if s != "" {
      ReplaceNothing(s[1..], c, text);
    }
  }

  predicate AllPlain(s: string) {
    forall i | 0 <= i < |s| :: IsPlain(s[i])
  }

  lemma {:induction false} PlainDecodes(s: string)
    requires AllPlain(s)
    ensures DecodeComponent(s) == Some(s) && FormDecode(s) == Some(s)
  {
    ReplaceNothing(s, '+', " ");
    if s != "" {
      PlainDecodes(s[1..]);
      assert IsPlain(s[0]);
      assert s == [s[0]] + s[1..];
    }
  }

  /** The only parameter of a query is found under its key. */
  lemma ParamIsFound(key: string, value: string)
    requires key != "" && AllPlain(key) && IsIdentity(value)
    ensures SearchParam(key + "=" + value, key) == FormDecode(value)
  {
    var query := key + ['='] + value;
    assert query == key + "=" + value;
    BeforeAll(query, '&');
    BeforeStop(key, '=', value);
    PlainDecodes(key);
    hide FormDecode, Before;
  }

  lemma IdentityDecodes(s: string)
    ensures FormDecode(EncodeIdentity(s)) == Some(s)
  {
    IdentityRoundTrip(s);
    ReplaceNothing(EncodeIdentity(s), '+', " ");
    hide EncodeIdentity, DecodeComponent;
  }

  lemma AddressIsParsed(scheme: string, id: string, query: string)
    requires ':' !in scheme && '#' !in query && IsIdentity(id)
    ensures ParseUrl(scheme + ":" + id + "?" + query) == Some(Url(scheme, id, query))
  {
    var plain := id + ['?'] + query;
    assert scheme + ":" + id + "?" + query == scheme + [':'] + plain;
    BeforeStop(scheme, ':', plain);
    BeforeAll(plain, '#');
    BeforeStop(id, '?', query);
    hide Before;
  }

  /** The query of a printed address. */
  function Query(r: Reference): string {
    match r
    case WorkspaceFolder(_, spaceId, _) => "spaceId=" + EncodeIdentity(spaceId)
    case LocalFile(_, _) => "kind=file"
    case LocalFolder(_, _) => "kind=folder"
  }

  function Scheme(r: Reference): string {
    if r.WorkspaceFolder? then FOLDER_SCHEME else LOCAL_SCHEME
  }

  function Identity(r: Reference): string {
    if r.WorkspaceFolder? then r.nodeId else r.path
  }

  predicate IsQueryChar(c: char) {
    IsIdentityChar(c) || c == '='
  }

  lemma AddressHasParts(r: Reference)
    ensures PathReferenceUrl(r) == Scheme(r) + ":" + EncodeIdentity(Identity(r)) + "?" + Query(r)
    ensures forall i | 0 <= i < |Query(r)| :: IsQueryChar(Query(r)[i])
  {
    QueryHasQueryChars(r);
    hide EncodeIdentity, IsQueryChar;
    var front := Scheme(r) + ":" + EncodeIdentity(Identity(r));
    match r
    case WorkspaceFolder(_, spaceId, _) =>
      assert "?spaceId=" == "?" + "spaceId=";
      QueryIsSplit(front, "spaceId=", EncodeIdentity(spaceId));
    case LocalFile(_, _) =>
      assert "?kind=file" == "?" + "kind=file";
    case LocalFolder(_, _) =>
      assert "?kind=folder" == "?" + "kind=folder";
  }

  lemma QueryIsSplit(front: string, key: string, value: string)
    ensures front + ("?" + key) + value == front + "?" + (key + value)
  {}

  lemma QueryHasQueryChars(r: Reference)
    ensures forall i | 0 <= i < |Query(r)| :: IsQueryChar(Query(r)[i])
  {
    if r.WorkspaceFolder? {
      IdentityRoundTrip(r.spaceId);
      hide EncodeIdentity;
      var id := EncodeIdentity(r.spaceId);
      assert forall i | 0 <= i < |id| :: IsIdentityChar(id[i]);
      assert forall i | 0 <= i < |"spaceId="| :: IsQueryChar("spaceId="[i]);
    }
  }

  lemma QueryIsRead(r: Reference)
    ensures match r
            case WorkspaceFolder(_, spaceId, _) => SearchParam(Query(r), "spaceId") == Some(spaceId)
            case LocalFile(_, _) => SearchParam(Query(r), "kind") == Some("file")
            case LocalFolder(_, _) => SearchParam(Query(r), "kind") == Some("folder")
  {
    match r {
      case WorkspaceFolder(_, spaceId, _) =>
        IdentityRoundTrip(spaceId);
        IdentityDecodes(spaceId);
        hide EncodeIdentity, FormDecode, SearchParam;
        assert "spaceId" + "=" == "spaceId=";
        ParamIsFound("spaceId", EncodeIdentity(spaceId));
      case LocalFile(_, _) =>
        hide FormDecode, SearchParam;
        assert "kind" + "=" + "file" == "kind=file";
        ParamIsFound("kind", "file");
        PlainDecodes("file");
      case LocalFolder(_, _) =>
        hide FormDecode, SearchParam;
        assert "kind" + "=" + "folder" == "kind=folder";
        ParamIsFound("kind", "folder");
        PlainDecodes("folder");
    }
  }

  /** Every reference that the program accepts is read back from its address and its name. */
  lemma AddressRoundTrip(r: Reference)
    requires Accepted(r)
    ensures PathReferenceFromUrl(PathReferenceUrl(r), r.name) == Some(r)
  {
    hide EncodeIdentity, Query, SearchParam, ParseUrl, DecodeComponent;
    AddressHasParts(r);
    IdentityRoundTrip(Identity(r));
    QueryIsRead(r);
    AddressIsParsed(Scheme(r), EncodeIdentity(Identity(r)), Query(r));
  }

  // ---------- A printed reference in a message ----------

  lemma {:induction false} RunStops(target: string, rest: string)
    requires forall i | 0 <= i < |target| :: !IsSpace(target[i]) && target[i] != ')'
    ensures TargetRun(target + [')'] + rest) == target
  {
    var s := target + [')'] + rest;
    if target != "" {
      RunStops(target[1..], rest);
      assert s[1..] == target[1..] + [')'] + rest;
      assert !IsSpace(s[0]) && s[0] != ')';
    }
  }

  lemma SchemeIsMatched(scheme: string, behind: string, caption: string, rest: string)
    requires behind != ""
    requires forall i | 0 <= i < |behind| :: !IsSpace(behind[i]) && behind[i] != ')'
    ensures MatchScheme(scheme + ":" + behind + ")" + rest, scheme, caption)
            == Some(Found(caption, scheme + ":" + behind, rest))
  {
    RunStops(behind, rest);
    var s := scheme + ":" + behind + ")" + rest;
    var text := behind + [')'] + rest;
    assert s == scheme + ":" + text;
    assert s[|scheme + ":"|..] == text;
    assert text[|behind| + 1..] == rest;
    hide TargetRun;
  }

  lemma OtherScheme(s: string, scheme: string, other: string, caption: string)
    requires scheme + ":" <= s
    requires exists i :: 0 <= i < |scheme| && i < |other| && scheme[i] != other[i]
    ensures MatchScheme(s, other, caption) == None
  {
    var i :| 0 <= i < |scheme| && i < |other| && scheme[i] != other[i];
    assert s[i] == (scheme + ":")[i] == scheme[i];
    assert (other + ":")[i] == other[i];
    assert !(other + ":" <= s);
  }

  lemma TargetIsMatched(r: Reference, caption: string, rest: string)
    ensures MatchTarget(PathReferenceUrl(r) + ")" + rest, caption)
            == Some(Found(caption, PathReferenceUrl(r), rest))
  {
    hide EncodeIdentity, Query, PathReferenceUrl, MatchScheme, IsSpace;
    var behind := EncodeIdentity(Identity(r)) + "?" + Query(r);
    var s := PathReferenceUrl(r) + ")" + rest;
    AddressHasParts(r);
    assert PathReferenceUrl(r) == Scheme(r) + ":" + behind;
    AddressHasNoSpace(r);
    SchemeIsMatched(Scheme(r), behind, caption, rest);
    assert Scheme(r) + ":" <= s;
    if r.WorkspaceFolder? {
      assert FOLDER_SCHEME[17] != RESOURCE_SCHEME[17];
      OtherScheme(s, FOLDER_SCHEME, RESOURCE_SCHEME, caption);
    } else {
      assert LOCAL_SCHEME[7] != RESOURCE_SCHEME[7] && LOCAL_SCHEME[7] != FOLDER_SCHEME[7];
      OtherScheme(s, LOCAL_SCHEME, RESOURCE_SCHEME, caption);
      OtherScheme(s, LOCAL_SCHEME, FOLDER_SCHEME, caption);
    }
  }

  lemma AddressHasNoSpace(r: Reference)
    ensures
      var behind := EncodeIdentity(Identity(r)) + "?" + Query(r);
      forall i | 0 <= i < |behind| :: !IsSpace(behind[i]) && behind[i] != ')'
  {
    IdentityRoundTrip(Identity(r));
    AddressHasParts(r);
    hide EncodeIdentity, Query, PathReferenceUrl;
    QueryStaysUnspaced(EncodeIdentity(Identity(r)), Query(r));
  }

  lemma QueryStaysUnspaced(id: string, query: string)
    requires forall i | 0 <= i < |id| :: IsIdentityChar(id[i])
    requires forall i | 0 <= i < |query| :: IsQueryChar(query[i])
    ensures
      var behind := id + "?" + query;
      forall i | 0 <= i < |behind| :: !IsSpace(behind[i]) && behind[i] != ')'
  {}

  lemma TailIsMatched(r: Reference, caption: string, rest: string)
    ensures MatchTail("](" + PathReferenceUrl(r) + ")" + rest, caption)
            == Some(Found(caption, PathReferenceUrl(r), rest))
  {
    hide EncodeIdentity, Query, PathReferenceUrl, MatchTarget;
    var address := PathReferenceUrl(r) + ")" + rest;
    assert "](" + PathReferenceUrl(r) + ")" + rest == "](" + address;
    assert ("](" + address)[2..] == address;
    AddressHasParts(r);
    assert address[0] == 'u';
    TargetIsMatched(r, caption, rest);
  }

  /** A printed reference with a name of one line is matched as a whole, whatever follows. */
  lemma ReferenceIsMatched(r: Reference, rest: string)
    requires Accepted(r) && '\n' !in r.name
    ensures MatchAt(PathReferenceText(r) + rest)
            == Some(Found(EscapeLabel(r.name), PathReferenceUrl(r), rest))
  {
    hide EscapeLabel, PathReferenceUrl, MatchTail, MatchLabel;
    var tail := "](" + PathReferenceUrl(r) + ")" + rest;
    var s := PathReferenceText(r) + rest;
    LabelRoundTrip(r.name);
    assert s == "@[" + (EscapeLabel(r.name) + tail);
    assert s[2..] == EscapeLabel(r.name) + tail;
    assert "" + EscapeLabel(r.name) == EscapeLabel(r.name);
    TailIsMatched(r, EscapeLabel(r.name), rest);
    LabelIsMatched(r.name, "", tail);
  }

  /** It is shown as that very reference. */
  lemma ReferenceIsShown(r: Reference, rest: string)
    requires Accepted(r)
    ensures NodeOf(Found(EscapeLabel(r.name), PathReferenceUrl(r), rest)) == Path(r)
  {
    hide *;
    LabelRoundTrip(r.name);
    AddressRoundTrip(r);
    SchemeIsParsed(r);
    ShownPath(Found(EscapeLabel(r.name), PathReferenceUrl(r), rest), r);
  }

  lemma SchemeIsParsed(r: Reference)
    ensures ParseUrl(PathReferenceUrl(r)).Some?
    ensures ParseUrl(PathReferenceUrl(r)).value.scheme != RESOURCE_SCHEME
  {
    hide EncodeIdentity, Query, ParseUrl, PathReferenceUrl;
    AddressHasParts(r);
    IdentityRoundTrip(Identity(r));
    AddressIsParsed(Scheme(r), EncodeIdentity(Identity(r)), Query(r));
    if r.WorkspaceFolder? {
      assert FOLDER_SCHEME[17] != RESOURCE_SCHEME[17];
    } else {
      assert LOCAL_SCHEME[7] != RESOURCE_SCHEME[7];
    }
  }

  lemma ShownPath(found: Found, r: Reference)
    requires ParseUrl(found.target).Some? && ParseUrl(found.target).value.scheme != RESOURCE_SCHEME
    requires PathReferenceFromUrl(found.target, UnescapeLabel(found.caption)) == Some(r)
    ensures NodeOf(found) == Path(r)
  {
    hide ParseUrl, PathReferenceFromUrl, UnescapeLabel, DecodeComponent;
  }

  lemma ScanReference(r: Reference, rest: string, gap: string)
    requires Accepted(r) && '\n' !in r.name
    ensures ScanFrom(PathReferenceText(r) + rest, gap)
            == Gap(gap) + [Part(PathReferenceText(r), Path(r))] + ScanFrom(rest, "")
  {
    hide MatchAt, NodeOf, ScanFrom, PathReferenceText;
    var s := PathReferenceText(r) + rest;
    ReferenceIsMatched(r, rest);
    ReferenceIsShown(r, rest);
    ScanFound(s, gap);
    assert s[..|s| - |rest|] == PathReferenceText(r);
  }

  // ---------- Messages ----------

  datatype Piece = Words(text: string) | Mention(reference: Reference)

  function Print(message: seq<Piece>): string {
    if message == [] then ""
    else
      (match message[0] case Words(text) => text case Mention(r) => PathReferenceText(r))
      + Print(message[1..])
  }

  function Parts(message: seq<Piece>): seq<Part> {
    if message == [] then []
    else
      [match message[0]
       case Words(text) => Part(text, Plain)
       case Mention(r) => Part(PathReferenceText(r), Path(r))] + Parts(message[1..])
  }

  predicate HasMark(text: string) {
    exists i | 0 <= i < |text| - 1 :: text[i] == '@' && text[i + 1] == '['
  }

  /** Plain text between references, and references with names of one line. */
  predicate WellFormed(message: seq<Piece>) {
    && (forall i | 0 <= i < |message| ::
          match message[i]
          case Words(text) => text != "" && !HasMark(text)
          case Mention(r) => Accepted(r) && '\n' !in r.name)
    && forall i | 0 <= i < |message| - 1 :: !(message[i].Words? && message[i + 1].Words?)
  }

  lemma MarkBehind(text: string)
    requires text != "" && HasMark(text[1..])
    ensures HasMark(text)
  {
    var i :| 0 <= i < |text[1..]| - 1 && text[1..][i] == '@' && text[1..][i + 1] == '[';
    assert text[i + 1] == '@' && text[i + 1 + 1] == '[';
  }

  /** No match starts in a text without the mark, when `[` does not follow it. */
  lemma NoMatchAt(text: string, rest: string)
    requires text != "" && !HasMark(text) && (rest == "" || rest[0] != '[')
    ensures MatchAt(text + rest).None?
  {
    hide MatchLabel;
    var s := text + rest;
    assert s[0] == text[0];
    assert |text| > 1 ==> s[1] == text[1];
    assert |text| == 1 && rest != "" ==> s[1] == rest[0];
  }

  lemma {:induction false} ScanText(text: string, rest: string, gap: string)
    requires !HasMark(text) && (rest == "" || rest[0] != '[')
    ensures ScanFrom(text + rest, gap) == ScanFrom(rest, gap + text)
    decreases |text|
  {
    if text == "" {
      assert text + rest == rest && gap + text == gap;
    } else {
      hide *;
      NoMatchAt(text, rest);
      ScanOn(text + rest, gap);
      FirstOfConcat(text, rest);
      if HasMark(text[1..]) {
        MarkBehind(text);
      }
      ScanText(text[1..], rest, gap + [text[0]]);
      Associates(gap, [text[0]], text[1..]);
      assert [text[0]] + text[1..] == text;
    }
  }

  /** A message of plain text and references is scanned back into exactly its pieces. */
  lemma ScanPrint(message: seq<Piece>)
    requires WellFormed(message)
    ensures Scan(Print(message)) == Parts(message)
  {
    ScanPrintFrom(message, "");
  }

  lemma {:induction false} ScanPrintFrom(message: seq<Piece>, gap: string)
    requires WellFormed(message)
    requires message != [] && message[0].Words? ==> gap == ""
    ensures ScanFrom(Print(message), gap) == Gap(gap) + Parts(message)
    decreases |message|
  {
    hide *;
    if message == [] {
      ScanNothing(gap);
      PrintNothing();
    } else {
      RestIsWellFormed(message);
      PrintStep(message);
      match message[0] {
        case Words(text) =>
          ScanWords(message, text);
          ScanPrintFrom(message[1..], text);
          NoGap(text);
        case Mention(r) =>
          ScanReference(r, Print(message[1..]), gap);
          ScanPrintFrom(message[1..], "");
          NoGap("");
      }
    }
  }

  lemma PrintNothing()
    ensures Print([]) == "" && Parts([]) == []
  {
  }

  lemma NoGap(text: string)
    ensures Gap(text) == if text == "" then [] else [Part(text, Plain)]
    ensures Gap("") == []
  {
  }

  lemma PrintStep(message: seq<Piece>)
    requires message != []
    ensures match message[0]
            case Words(text) =>
              && Print(message) == text + Print(message[1..])
              && Parts(message) == [Part(text, Plain)] + Parts(message[1..])
            case Mention(r) =>
              && Print(message) == PathReferenceText(r) + Print(message[1..])
              && Parts(message) == [Part(PathReferenceText(r), Path(r))] + Parts(message[1..])
  {
    hide PathReferenceText;
  }

  lemma ScanWords(message: seq<Piece>, text: string)
    requires message != [] && message[0] == Words(text) && !HasMark(text)
    requires message[1..] != [] ==> message[1].Mention?
    ensures ScanFrom(text + Print(message[1..]), "") == ScanFrom(Print(message[1..]), text)
  {
    hide ScanFrom, HasMark;
    PrintStarts(message[1..]);
    ScanText(text, Print(message[1..]), "");
    assert "" + text == text;
  }

  lemma RestIsWellFormed(message: seq<Piece>)
    requires WellFormed(message) && message != []
    ensures WellFormed(message[1..])
    ensures message[0].Words? && message[1..] != [] ==> message[1].Mention?
    ensures match message[0]
            case Words(text) => text != "" && !HasMark(text)
            case Mention(r) => Accepted(r) && '\n' !in r.name
  {
    hide HasMark, Accepted;
    var more := message[1..];
    if more != [] {
      assert !(message[0].Words? && message[0 + 1].Words?);
    }
    forall i | 0 <= i < |more| - 1 ensures !(more[i].Words? && more[i + 1].Words?) {
      var j := i + 1;
      assert more[i] == message[j] && more[i + 1] == message[j + 1];
    }
  }

  lemma PrintStarts(message: seq<Piece>)
    requires message != [] ==> message[0].Mention?
    ensures Print(message) == "" || Print(message)[0] == '@'
  {
  }

  // ---------- Exactly which names come back ----------

  /** No matched label spans two lines. */
  lemma {:induction false} LabelHasNoLineFeed(s: string, caption: string)
    requires '\n' !in caption
    ensures MatchLabel(s, caption).Some? ==> '\n' !in MatchLabel(s, caption).value.caption
    decreases |s|
  {
    hide MatchTarget, Skip;
    TailKeepsCaption(s, caption);
    hide MatchTail;
    if |s| >= 2 && s[0] == '\\' && !IsLineEnd(s[1]) {
      LabelHasNoLineFeed(s[2..], caption + s[..2]);
    }
    if s != "" && s[0] != ']' && s[0] != '\n' {
      LabelHasNoLineFeed(s[1..], caption + [s[0]]);
    }
  }

  lemma TailKeepsCaption(s: string, caption: string)
    ensures MatchTail(s, caption).Some? ==> MatchTail(s, caption).value.caption == caption
  {
  }

  lemma {:induction false} UnescapeAddsNothing(s: string, c: char)
    requires c !in s
    ensures c !in UnescapeLabel(s)
  {
    if |s| >= 2 && s[0] == '\\' && (s[1] == '\\' || s[1] == ']') {
      UnescapeAddsNothing(s[2..], c);
    } else if s != "" {
      UnescapeAddsNothing(s[1..], c);
    }
  }

  lemma ShownOnOneLine(s: string)
    requires MatchAt(s).Some? && NodeOf(MatchAt(s).value).Path?
    ensures '\n' !in NodeOf(MatchAt(s).value).reference.name
  {
    LabelHasNoLineFeed(s[2..], "");
    UnescapeAddsNothing(MatchAt(s).value.caption, '\n');
    hide MatchLabel, UnescapeLabel, ParseUrl, SearchParam;
  }

  /** An accepted reference comes back from its printed form exactly when its name is one line. */
  lemma NameComesBackExactly(r: Reference)
    requires Accepted(r)
    ensures Scan(PathReferenceText(r)) == [Part(PathReferenceText(r), Path(r))] <==> '\n' !in r.name
  {
    hide MatchAt, NodeOf, ScanFrom, PathReferenceText;
    var s := PathReferenceText(r);
    assert s + "" == s;
    if '\n' !in r.name {
      ScanReference(r, "", "");
      ScanNothing("");
    } else if Scan(s) == [Part(s, Path(r))] {
      FirstIsMatch(s, "", Part(s, Path(r)));
      ShownOnOneLine(s);
    }
  }

  /** What comes back, field by field: nothing blank, no NUL in a path, and a name of one line. */
  lemma NamedPathsComeBack(path: string, space: string, name: string)
    requires path != "" && space != "" && name != "" && '\n' !in name
    ensures
      var folder := WorkspaceFolder(path, space, name);
      Scan(PathReferenceText(folder)) == [Part(PathReferenceText(folder), Path(folder))]
    ensures '\0' !in path ==>
      var file, folder := LocalFile(path, name), LocalFolder(path, name);
      && Scan(PathReferenceText(file)) == [Part(PathReferenceText(file), Path(file))]
      && Scan(PathReferenceText(folder)) == [Part(PathReferenceText(folder), Path(folder))]
  {
    hide Scan, PathReferenceText;
    NameComesBackExactly(WorkspaceFolder(path, space, name));
    if '\0' !in path {
      NameComesBackExactly(LocalFile(path, name));
      NameComesBackExactly(LocalFolder(path, name));
    }
  }

  /** This address, with this name, stands for this reference. */
  predicate Reads(target: string, name: string, r: Reference) {
    && ParseUrl(target).Some? && name != "" && r.name == name
    && var url := ParseUrl(target).value;
       match r
       case WorkspaceFolder(nodeId, spaceId, _) =>
         && url.scheme == "univer-workspace-folder" && nodeId != "" && spaceId != ""
         && DecodeComponent(url.pathname) == Some(nodeId) && SearchParam(url.query, "spaceId") == Some(spaceId)
       case LocalFile(path, _) =>
         && url.scheme == "univer-local-path" && path != "" && '\0' !in path
         && DecodeComponent(url.pathname) == Some(path) && SearchParam(url.query, "kind") == Some("file")
       case LocalFolder(path, _) =>
         && url.scheme == "univer-local-path" && path != "" && '\0' !in path
         && DecodeComponent(url.pathname) == Some(path) && SearchParam(url.query, "kind") == Some("folder")
  }

  /** No other address is read, and none with a blank field or with a NUL in its path. */
  lemma ReadInFull(target: string, name: string, r: Reference)
    ensures PathReferenceFromUrl(target, name) == Some(r) <==> Reads(target, name, r)
  {
    hide ParseUrl, DecodeComponent, SearchParam;
    assert "univer-workspace-folder"[7] != "univer-local-path"[7];
    assert "file"[1] != "folder"[1];
  }

  /** A parameter under another key, or an empty one, is passed over. */
  lemma OtherParamIsSkipped(pair: string, rest: string, key: string)
    requires '&' !in pair && (pair == "" || FormDecode(Before(pair, '=')) != Some(key))
    ensures SearchParam(pair + "&" + rest, key) == SearchParam(rest, key)
  {
    hide FormDecode, Before;
    var query := pair + ['&'] + rest;
    assert query == pair + "&" + rest;
    BeforeStop(pair, '&', rest);
    assert query[|pair| + 1..] == rest;
  }

  /** A folder whose name has two lines is printed, and not shown as itself. */
  lemma TwoLinesAreLost()
    ensures
      var r := WorkspaceFolder("folder", "space", "two\nlines");
      && Accepted(r)
      && Scan(PathReferenceText(r)) != [Part(PathReferenceText(r), Path(r))]
  {
    hide Scan, PathReferenceText;
    var r := WorkspaceFolder("folder", "space", "two\nlines");
    assert r.name[3] == '\n';
    NameComesBackExactly(r);
  }

  /** A single part that is no plain text is a match of the whole text. */
  lemma {:induction false} FirstIsMatch(s: string, gap: string, part: Part)
    requires ScanFrom(s, gap) == [part] && part.source == gap + s && !part.node.Plain?
    ensures gap == "" && MatchAt(s).Some? && NodeOf(MatchAt(s).value) == part.node
    decreases |s|
  {
    hide MatchAt, NodeOf, ScanFrom;
    if s == "" {
      ScanNothing(gap);
    } else if MatchAt(s).Some? {
      ScanFound(s, gap);
      var rest := ScanFrom(MatchAt(s).value.rest, "");
      assert |ScanFrom(s, gap)| == |Gap(gap)| + 1 + |rest|;
      assert ScanFrom(s, gap)[|Gap(gap)|].node == NodeOf(MatchAt(s).value);
    } else {
      ScanOn(s, gap);
      assert gap + [s[0]] + s[1..] == gap + s;
      FirstIsMatch(s[1..], gap + [s[0]], part);
    }
  }
}
