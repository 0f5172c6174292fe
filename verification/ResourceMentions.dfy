/**
 * Resources in messages: the wire form that the message view projects for a resource
 * (workspace-resource-reference.ts) and what its scanner shows for it.
 */
module ResourceMentions {
  import opened Wrappers
  import opened Sequences
  import opened Strings
  import opened Percent
  import opened PathReferences
  import opened PathReferenceScan
  import T = RuntimeTarget

  datatype Mention = Mention(name: string, resourceId: string, unitType: Option<T.UnitType>)

  const SESSION := "dsh-session:"
  const UNIT_TYPE := "unitType"

  /** The query of the address, with its question mark. */
  function Suffix(m: Mention): string {
    if m.unitType.None? then "" else "?" + UNIT_TYPE + "=" + T.UnitTypeName(m.unitType.value)
  }

  /** What stands behind the scheme: the id is encoded without escaping `! ' ( ) *`. */
  function BehindScheme(m: Mention): string {
    EncodeComponent(m.resourceId) + Suffix(m)
  }

  /** `workspaceResourceMessageProjection` for a resource with an id and a name. */
  function MentionText(m: Mention): string {
    "@[" + EscapeLabel(m.name) + "](" + SESSION + RESOURCE_SCHEME + ":" + BehindScheme(m) + ")"
  }

  /** How the mention should be shown. */
  function Shown(m: Mention): Node {
    Resource(m.name, m.resourceId, if m.unitType.Some? then T.UnitTypeName(m.unitType.value) else "")
  }

  // ---------- Characters ----------

  lemma {:induction false} EncodedHasNoBracket(s: string)
    requires ')' !in s
    ensures ')' !in EncodeComponent(s)
  {
    if s != "" {
      EncodedHasNoBracket(s[1..]);
      UnfoldEncode(s);
      EscapedCharacters(Utf8(s[0]));
      hide Utf8, EscapeAll, EncodeComponent;
      assert ')' !in EncodeChar(s[0]);
    }
  }

  /** A closing bracket stays as it is, so the encoding splits at one. */
  lemma {:induction false} SplitAtBracket(s: string) returns (before: string, behind: string)
    requires ')' in s
    ensures EncodeComponent(s) == before + ")" + behind && ')' !in behind && ':' !in behind
  {
    hide *;
    UnfoldEncode(s);
    if ')' in s[1..] {
      var first;
      first, behind := SplitAtBracket(s[1..]);
      before := EncodeChar(s[0]) + first;
      Associates(EncodeChar(s[0]), first + ")", behind);
      Associates(EncodeChar(s[0]), first, ")");
    } else {
      BracketFirst(s);
      EncodedHasNoBracket(s[1..]);
      EncodedHasNoColon(s[1..]);
      before, behind := "", EncodeComponent(s[1..]);
      assert "" + ")" == ")";
    }
  }

  lemma BracketFirst(s: string)
    requires ')' in s && ')' !in s[1..]
    ensures EncodeChar(s[0]) == ")"
  {
    assert s[0] == ')';
  }

  lemma EncodedHasNoColon(s: string)
    ensures ':' !in EncodeComponent(s)
  {
    EncodedCharacters(s);
    hide EncodeComponent;
    assert forall c: char | IsEncodedChar(c) :: c != ':';
  }

  lemma UnitTypeIsPlain(t: T.UnitType)
    ensures AllPlain(T.UnitTypeName(t))
  {
  }

  predicate IsAddressChar(c: char) {
    IsEncodedChar(c) || c == '?' || c == '='
  }

  lemma SuffixCharacters(m: Mention)
    ensures forall i | 0 <= i < |Suffix(m)| :: IsAddressChar(Suffix(m)[i]) && Suffix(m)[i] != ')'
    ensures ')' !in Suffix(m) && ':' !in Suffix(m)
  {
    if m.unitType.Some? {
      UnitTypeIsPlain(m.unitType.value);
      hide T.UnitTypeName;
      assert forall c: char | IsPlain(c) || c == '?' || c == '=' :: IsAddressChar(c) && c != ')' && c != ':';
      assert forall i | 0 <= i < |UNIT_TYPE| :: IsPlain(UNIT_TYPE[i]);
    }
  }

  lemma AddressHasNoBracket(m: Mention)
    requires ')' !in m.resourceId
    ensures forall i | 0 <= i < |BehindScheme(m)| ::
              !IsSpace(BehindScheme(m)[i]) && BehindScheme(m)[i] != ')'
  {
    EncodedHasNoBracket(m.resourceId);
    EncodedCharacters(m.resourceId);
    SuffixCharacters(m);
    hide EncodeComponent, Suffix;
    var id := EncodeComponent(m.resourceId);
    assert forall i | 0 <= i < |id| :: id[i] in id && IsEncodedChar(id[i]);
    assert forall c: char | IsAddressChar(c) :: !IsSpace(c);
  }

  // ---------- A mention that comes back ----------

  /** The optional prefix in front of an address that matches. */
  lemma SessionTail(target: string, caption: string)
    requires MatchTarget(target, caption).Some?
    ensures MatchTail("](" + SESSION + target, caption) == MatchTarget(target, caption)
  {
    hide MatchTarget;
    var s := "](" + SESSION + target;
    assert s[2..] == SESSION + target;
    assert (SESSION + target)[|SESSION|..] == target;
    assert SESSION == "dsh-session:";
  }

  lemma ResourceTarget(behind: string, caption: string)
    requires behind != ""
    requires forall i | 0 <= i < |behind| :: !IsSpace(behind[i]) && behind[i] != ')'
    ensures MatchTarget(RESOURCE_SCHEME + ":" + behind + ")", caption)
            == Some(Found(caption, RESOURCE_SCHEME + ":" + behind, ""))
  {
    hide MatchScheme, IsSpace;
    SchemeIsMatched(RESOURCE_SCHEME, behind, caption, "");
    assert RESOURCE_SCHEME + ":" + behind + ")" + "" == RESOURCE_SCHEME + ":" + behind + ")";
  }

  lemma MentionTail(m: Mention, caption: string)
    requires ')' !in m.resourceId && m.resourceId != ""
    ensures MatchTail("](" + SESSION + RESOURCE_SCHEME + ":" + BehindScheme(m) + ")", caption)
            == Some(Found(caption, RESOURCE_SCHEME + ":" + BehindScheme(m), ""))
  {
    hide *;
    var behind := BehindScheme(m);
    AddressHasNoBracket(m);
    BehindIsNotEmpty(m);
    ResourceTarget(behind, caption);
    SessionTail(RESOURCE_SCHEME + ":" + behind + ")", caption);
    Regrouped(SESSION, RESOURCE_SCHEME, behind);
  }

  lemma Regrouped(session: string, scheme: string, behind: string)
    ensures "](" + session + (scheme + ":" + behind + ")") == "](" + session + scheme + ":" + behind + ")"
  {
  }

  lemma BehindIsNotEmpty(m: Mention)
    requires m.resourceId != ""
    ensures BehindScheme(m) != ""
  {
    EncodedCharacters(m.resourceId);
  }

  lemma MentionHasParts(m: Mention, tail: string)
    requires tail == "](" + SESSION + RESOURCE_SCHEME + ":" + BehindScheme(m) + ")"
    ensures MentionText(m) == "@[" + (EscapeLabel(m.name) + tail)
    ensures MentionText(m)[2..] == EscapeLabel(m.name) + tail
  {
    hide EscapeLabel, BehindScheme;
    assert MentionText(m) == "@[" + (EscapeLabel(m.name) + tail);
  }

  lemma MentionIsMatched(m: Mention)
    requires ')' !in m.resourceId && m.resourceId != "" && m.name != "" && '\n' !in m.name
    ensures MatchAt(MentionText(m))
            == Some(Found(EscapeLabel(m.name), RESOURCE_SCHEME + ":" + BehindScheme(m), ""))
  {
    hide EscapeLabel, BehindScheme, MatchTail, MatchLabel;
    var tail := "](" + SESSION + RESOURCE_SCHEME + ":" + BehindScheme(m) + ")";
    LabelRoundTrip(m.name);
    hide MentionText;
    MentionHasParts(m, tail);
    assert "" + EscapeLabel(m.name) == EscapeLabel(m.name);
    MentionTail(m, EscapeLabel(m.name));
    LabelIsMatched(m.name, "", tail);
  }

  function QueryOf(m: Mention): string {
    if m.unitType.Some? then UNIT_TYPE + "=" + T.UnitTypeName(m.unitType.value) else ""
  }

  /** Neither an encoded id nor the suffix has a character that ends the path too early. */
  lemma AddressCharacters(m: Mention)
    ensures '#' !in BehindScheme(m)
    ensures '?' !in EncodeComponent(m.resourceId)
  {
    EncodedCharacters(m.resourceId);
    SuffixCharacters(m);
    hide EncodeComponent, Suffix;
    assert forall c: char | IsEncodedChar(c) :: c != '#' && c != '?';
    assert forall c: char | IsAddressChar(c) :: c != '#';
  }

  lemma MentionIsParsed(m: Mention)
    ensures ParseUrl(RESOURCE_SCHEME + ":" + BehindScheme(m))
            == Some(Url(RESOURCE_SCHEME, EncodeComponent(m.resourceId), QueryOf(m)))
  {
    var id, behind := EncodeComponent(m.resourceId), BehindScheme(m);
    AddressCharacters(m);
    PathIsCut(m);
    hide EncodeComponent, T.UnitTypeName, Before, BehindScheme, QueryOf;
    assert RESOURCE_SCHEME + ":" + behind == RESOURCE_SCHEME + [':'] + behind;
    BeforeStop(RESOURCE_SCHEME, ':', behind);
    BeforeAll(behind, '#');
  }

  lemma PathIsCut(m: Mention)
    ensures Before(BehindScheme(m), '?') == EncodeComponent(m.resourceId)
    ensures Behind(BehindScheme(m), '?') == if m.unitType.Some? then Some(QueryOf(m)) else None
    ensures m.unitType.None? ==> QueryOf(m) == ""
  {
    AddressCharacters(m);
    hide EncodeComponent, T.UnitTypeName, Before, Behind;
    var id := EncodeComponent(m.resourceId);
    if m.unitType.Some? {
      assert BehindScheme(m) == id + ['?'] + QueryOf(m);
      BeforeStop(id, '?', QueryOf(m));
    } else {
      assert BehindScheme(m) == id;
      BeforeAll(id, '?');
    }
  }

  lemma QueryIsUnitType(m: Mention)
    ensures m.unitType.None? ==> SearchParam(QueryOf(m), UNIT_TYPE) == None
    ensures m.unitType.Some? ==>
              SearchParam(QueryOf(m), UNIT_TYPE) == Some(T.UnitTypeName(m.unitType.value))
  {
    hide T.UnitTypeName, SearchParam, FormDecode;
    NoQuery();
    if m.unitType.Some? {
      var name := T.UnitTypeName(m.unitType.value);
      UnitTypeIsPlain(m.unitType.value);
      PlainIsIdentity(name);
      PlainDecodes(name);
      ParamIsFound(UNIT_TYPE, name);
    }
  }

  lemma NoQuery()
    ensures SearchParam("", UNIT_TYPE) == None
  {
  }

  lemma ResourceNode(found: Found, id: string)
    requires ParseUrl(found.target).Some? && ParseUrl(found.target).value.scheme == RESOURCE_SCHEME
    requires DecodeComponent(ParseUrl(found.target).value.pathname) == Some(id)
    ensures
      var unitType := SearchParam(ParseUrl(found.target).value.query, UNIT_TYPE);
      NodeOf(found)
      == Resource(UnescapeLabel(found.caption), id, if unitType.Some? then unitType.value else "")
  {
    hide ParseUrl, DecodeComponent, UnescapeLabel, SearchParam;
    assert UNIT_TYPE == "unitType";
  }

  lemma MentionIsShown(m: Mention)
    ensures NodeOf(Found(EscapeLabel(m.name), RESOURCE_SCHEME + ":" + BehindScheme(m), "")) == Shown(m)
  {
    ShownIs(m);
    hide *;
    LabelRoundTrip(m.name);
    MentionIsParsed(m);
    DecodeEncode(m.resourceId);
    QueryIsUnitType(m);
    ResourceNode(Found(EscapeLabel(m.name), RESOURCE_SCHEME + ":" + BehindScheme(m), ""), m.resourceId);
  }

  lemma ShownIs(m: Mention)
    ensures Shown(m) == Resource(m.name, m.resourceId,
                                 if m.unitType.Some? then T.UnitTypeName(m.unitType.value) else "")
  {
  }

  lemma PlainIsIdentity(s: string)
    requires AllPlain(s)
    ensures IsIdentity(s)
  {
  }

  // ---------- A mention that does not ----------

  /** A matched target stands in the text just before a closing bracket and has none itself. */
  ghost predicate TargetStands(s: string, found: Found) {
    && ')' !in found.target && ':' in found.target
    && exists before :: s == before + found.target + ")" + found.rest
  }

  lemma StandsBehind(s: string, t: string, found: Found, before: string)
    requires TargetStands(t, found) && s == before + t
    ensures TargetStands(s, found)
  {
    var inner :| t == inner + found.target + ")" + found.rest;
    assert s == (before + inner) + found.target + ")" + found.rest;
  }

  lemma {:induction false} RunHasNoBracket(s: string)
    ensures ')' !in TargetRun(s)
  {
    if s != "" {
      RunHasNoBracket(s[1..]);
    }
  }

  lemma SchemeStands(s: string, scheme: string, caption: string)
    requires ')' !in scheme
    ensures MatchScheme(s, scheme, caption).Some? ==>
              TargetStands(s, MatchScheme(s, scheme, caption).value)
  {
    hide TargetRun;
    if MatchScheme(s, scheme, caption).Some? {
      var behind := s[|scheme + ":"|..];
      var run := TargetRun(behind);
      RunHasNoBracket(behind);
      Standing(scheme, run, behind[|run| + 1..], s, caption);
    }
  }

  lemma Standing(scheme: string, run: string, rest: string, s: string, caption: string)
    requires ')' !in scheme && ')' !in run && s == scheme + ":" + (run + ")" + rest)
    ensures TargetStands(s, Found(caption, scheme + ":" + run, rest))
  {
    assert s == "" + (scheme + ":" + run) + ")" + rest;
    assert (scheme + ":" + run)[|scheme|] == ':';
  }

  lemma TargetStandsIn(s: string, caption: string)
    ensures MatchTarget(s, caption).Some? ==> TargetStands(s, MatchTarget(s, caption).value)
  {
    hide MatchScheme, TargetStands;
    SchemeStands(s, RESOURCE_SCHEME, caption);
    SchemeStands(s, FOLDER_SCHEME, caption);
    SchemeStands(s, LOCAL_SCHEME, caption);
  }

  lemma TailStands(s: string, caption: string)
    ensures MatchTail(s, caption).Some? ==> TargetStands(s, MatchTail(s, caption).value)
  {
    hide MatchTarget, TargetStands;
    if MatchTail(s, caption).Some? {
      var address := s[2..];
      var found := MatchTail(s, caption).value;
      assert s == "](" + address;
      TargetStandsIn(address, caption);
      if SESSION <= address {
        TargetStandsIn(address[|SESSION|..], caption);
        assert address == SESSION + address[|SESSION|..];
        if MatchTarget(address[|SESSION|..], caption).Some? {
          StandsBehind(address, address[|SESSION|..], found, SESSION);
        }
      }
      StandsBehind(s, address, found, "](");
    }
  }

  lemma {:induction false} LabelStands(s: string, caption: string)
    ensures MatchLabel(s, caption).Some? ==> TargetStands(s, MatchLabel(s, caption).value)
    decreases |s|
  {
    hide MatchTail, TargetStands, IsLineEnd;
    TailStands(s, caption);
    if |s| >= 2 {
      LabelStands(s[2..], caption + s[..2]);
      assert s == s[..2] + s[2..];
      if MatchLabel(s[2..], caption + s[..2]).Some? {
        StandsBehind(s, s[2..], MatchLabel(s[2..], caption + s[..2]).value, s[..2]);
      }
    }
    if s != "" {
      LabelStands(s[1..], caption + [s[0]]);
      assert s == [s[0]] + s[1..];
      if MatchLabel(s[1..], caption + [s[0]]).Some? {
        StandsBehind(s, s[1..], MatchLabel(s[1..], caption + [s[0]]).value, [s[0]]);
      }
    }
  }

  /** Behind a closing bracket that no colon follows, no target can end the text. */
  lemma NoTargetBehind(s: string, found: Found, before: string, behind: string)
    requires s == before + ")" + behind + ")" && ')' !in behind && ':' !in behind
    requires found.rest == ""
    ensures !TargetStands(s, found)
  {
    if TargetStands(s, found) {
      var inner :| s == inner + found.target + ")" + found.rest;
      assert s[..|s| - 1] == inner + found.target;
      assert s[..|s| - 1] == before + ")" + behind;
      EndsAlike(inner, found.target, before, behind);
    }
  }

  /** Two ways to cut a text: the end is short and within `behind`, or long and has the bracket. */
  lemma EndsAlike(inner: string, target: string, before: string, behind: string)
    requires inner + target == before + ")" + behind
    ensures |target| > |behind| ==> ')' in target
    ensures |target| <= |behind| ==> forall c | c in target :: c in behind
  {
    var s, n := inner + target, |target|;
    if n > |behind| {
      assert target[n - 1 - |behind|] == s[|s| - 1 - |behind|];
    } else {
      forall i | 0 <= i < n ensures target[i] in behind {
        assert target[i] == s[|inner| + i];
        assert s[|inner| + i] == behind[|behind| - n + i];
      }
    }
  }

  lemma BracketIsLost(m: Mention)
    requires ')' in m.resourceId
    ensures MatchAt(MentionText(m)).Some? ==> MatchAt(MentionText(m)).value.rest != ""
  {
    hide EscapeLabel, EncodeComponent, Suffix, MatchLabel, TargetStands;
    var s := MentionText(m);
    var first, last := SplitAtBracket(m.resourceId);
    SuffixCharacters(m);
    var behind := last + Suffix(m);
    var before := "@[" + EscapeLabel(m.name) + "](" + SESSION + RESOURCE_SCHEME + ":" + first;
    assert s == before + ")" + behind + ")";
    if MatchAt(s).Some? {
      LabelStands(s[2..], "");
      assert s == "@[" + s[2..];
      StandsBehind(s, s[2..], MatchAt(s).value, "@[");
      if MatchAt(s).value.rest == "" {
        NoTargetBehind(s, MatchAt(s).value, before, behind);
      }
    }
  }

  /**
   * A mentioned resource is shown as itself exactly when its name is one line and its id has no
   * closing bracket: unlike the identities of folders and files, the id is printed with brackets
   * unescaped, and the scanner ends an address at the first closing one.
   */
  lemma MentionComesBackExactly(m: Mention)
    requires m.name != "" && m.resourceId != ""
    ensures Scan(MentionText(m)) == [Part(MentionText(m), Shown(m))]
            <==> '\n' !in m.name && ')' !in m.resourceId
  {
    hide MatchAt, NodeOf, ScanFrom, MentionText;
    var s := MentionText(m);
    assert s[..|s|] == s && s[..|s| - 0] == s;
    if '\n' !in m.name && ')' !in m.resourceId {
      MentionIsMatched(m);
      MentionIsShown(m);
      ScanFound(s, "");
      ScanNothing("");
    } else if Scan(s) == [Part(s, Shown(m))] {
      assert "" + s == s;
      FirstIsMatch(s, "", Part(s, Shown(m)));
      WholeIsMatched(s, Part(s, Shown(m)));
      if ')' in m.resourceId {
        BracketIsLost(m);
      } else {
        ResourceOnOneLine(s);
      }
    }
  }

  /** A resource whose id has a closing bracket is mentioned, and not shown as itself. */
  lemma BracketedIdIsLost()
    ensures
      var m := Mention.Mention("sheet", "id)", None);
      Scan(MentionText(m)) != [Part(MentionText(m), Shown(m))]
  {
    hide Scan, MentionText, Shown;
    var m := Mention.Mention("sheet", "id)", None);
    assert m.resourceId[2] == ')';
    MentionComesBackExactly(m);
  }

  lemma WholeIsMatched(s: string, part: Part)
    requires Scan(s) == [part] && MatchAt(s).Some?
    ensures MatchAt(s).value.rest == ""
  {
    hide MatchAt, NodeOf, ScanFrom;
    ScanFound(s, "");
    var rest := MatchAt(s).value.rest;
    assert |Scan(s)| == |Gap("")| + 1 + |ScanFrom(rest, "")|;
    if rest != "" {
      ScanFromLosesNothing(rest, "");
    }
  }

  lemma ResourceOnOneLine(s: string)
    requires MatchAt(s).Some? && NodeOf(MatchAt(s).value).Resource?
    ensures '\n' !in NodeOf(MatchAt(s).value).caption
  {
    LabelHasNoLineFeed(s[2..], "");
    UnescapeAddsNothing(MatchAt(s).value.caption, '\n');
    hide MatchLabel, UnescapeLabel, ParseUrl, SearchParam;
  }
}
