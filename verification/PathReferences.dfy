/**
 * References to folders and local files in messages: how they are printed (path-reference.ts)
 * and how the message view finds them again (`renderDisplayText` in
 * WorkspaceUserMessageNodeView.tsx). Strings are sequences of code points, as the scanner's
 * regular expression reads them.
 */
module PathReferences {
  import opened Wrappers
  import opened Strings
  import opened Percent

  datatype Reference =
    | WorkspaceFolder(nodeId: string, spaceId: string, name: string)
    | LocalFile(path: string, name: string)
    | LocalFolder(path: string, name: string)

  /** What `decodePathReference` accepts. */
  predicate Accepted(r: Reference) {
    && r.name != ""
    && match r
       case WorkspaceFolder(nodeId, spaceId, _) => nodeId != "" && spaceId != ""
       case LocalFile(path, _) => path != "" && '\0' !in path
       case LocalFolder(path, _) => path != "" && '\0' !in path
  }

  const FOLDER_SCHEME := "univer-workspace-folder"
  const RESOURCE_SCHEME := "univer-workspace-resource"
  const LOCAL_SCHEME := "univer-local-path"

  // ---------- Printing ----------

  function ReplaceAll(s: string, c: char, text: string): string {
    if s == "" then "" else (if s[0] == c then text else [s[0]]) + ReplaceAll(s[1..], c, text)
  }

  function EscapeMarks(s: string): string {
    if s == "" then ""
    else (if IsMark(s[0]) then Escape(s[0] as int) else [s[0]]) + EscapeMarks(s[1..])
  }

  /** `encodeURIComponent` with the five marks escaped too. */
  function EncodeIdentity(s: string): string {
    EscapeMarks(EncodeComponent(s))
  }

  function PathReferenceUrl(r: Reference): string {
    match r
    case WorkspaceFolder(nodeId, spaceId, _) =>
      FOLDER_SCHEME + ":" + EncodeIdentity(nodeId) + "?spaceId=" + EncodeIdentity(spaceId)
    case LocalFile(path, _) => LOCAL_SCHEME + ":" + EncodeIdentity(path) + "?kind=file"
    case LocalFolder(path, _) => LOCAL_SCHEME + ":" + EncodeIdentity(path) + "?kind=folder"
  }

  function EscapeLabel(name: string): string {
    ReplaceAll(ReplaceAll(name, '\\', "\\\\"), ']', "\\]")
  }

  function PathReferenceText(r: Reference): string {
    "@[" + EscapeLabel(r.name) + "](" + PathReferenceUrl(r) + ")"
  }

  // ---------- Reading an address ----------

  /** What stands behind the first occurrence of `c`, if there is one. */
  function Behind(s: string, c: char): Option<string> {
    var before := Before(s, c);
    if |before| < |s| then Some(s[|before| + 1..]) else None
  }

  /** An address with an opaque path, as a scheme that is not followed by a slash has. */
  datatype Url = Url(scheme: string, pathname: string, query: string)

  function ParseUrl(target: string): Option<Url> {
    match Behind(target, ':')
    case None => None
    case Some(rest) =>
      var plain := Before(rest, '#');
      Some(Url(Before(target, ':'), Before(plain, '?'),
               match Behind(plain, '?') case Some(query) => query case None => ""))
  }

  function FormDecode(s: string): Option<string> {
    DecodeComponent(ReplaceAll(s, '+', " "))
  }

  /** `searchParams.get`; a value that is not well encoded counts as absent. */
  function SearchParam(query: string, key: string): Option<string>
    decreases |query|
  {
    if query == "" then None
    else
      var pair := Before(query, '&');
      if pair != "" && FormDecode(Before(pair, '=')) == Some(key)
      then FormDecode(match Behind(pair, '=') case Some(value) => value case None => "")
      else
        match Behind(query, '&')
        case Some(rest) => SearchParam(rest, key)
        case None => None
  }

  /** `pathReferenceFromUrl` */
  function PathReferenceFromUrl(target: string, name: string): (r: Option<Reference>)
    ensures r.Some? ==> Accepted(r.value) && r.value.name == name
  {
    match ParseUrl(target)
    case None => None
    case Some(url) =>
      match DecodeComponent(url.pathname)
      case None => None
      case Some(id) =>
        var candidate :=
          if url.scheme == FOLDER_SCHEME then
            match SearchParam(url.query, "spaceId")
            case Some(spaceId) => Some(WorkspaceFolder(id, spaceId, name))
            case None => None
          else if url.scheme == LOCAL_SCHEME && SearchParam(url.query, "kind") == Some("folder") then
            Some(LocalFolder(id, name))
          else if url.scheme == LOCAL_SCHEME && SearchParam(url.query, "kind") == Some("file") then
            Some(LocalFile(id, name))
          else None;
        if candidate.Some? && Accepted(candidate.value) then candidate else None
  }

  // ---------- Scanning a message ----------

  /** What one match of the expression captures, and the text behind it. */
  datatype Found = Found(caption: string, target: string, rest: string)

  function Skip(s: string, prefix: string): Option<string> {
    if prefix <= s then Some(s[|prefix|..]) else None
  }

  /** The longest run of characters that are neither white space nor `)`. */
  function TargetRun(s: string): (run: string)
    ensures run <= s
  {
    if s == "" || IsSpace(s[0]) || s[0] == ')' then "" else [s[0]] + TargetRun(s[1..])
  }

  function MatchScheme(s: string, scheme: string, caption: string): Option<Found> {
    match Skip(s, scheme + ":")
    case None => None
    case Some(behind) =>
      var run := TargetRun(behind);
      if run != "" && |run| < |behind| && behind[|run|] == ')'
      then Some(Found(caption, scheme + ":" + run, behind[|run| + 1..]))
      else None
  }

  function MatchTarget(s: string, caption: string): Option<Found> {
    var resource := MatchScheme(s, RESOURCE_SCHEME, caption);
    var folder := MatchScheme(s, FOLDER_SCHEME, caption);
    if resource.Some? then resource else if folder.Some? then folder
    else MatchScheme(s, LOCAL_SCHEME, caption)
  }

  /** From the closing bracket on; the optional prefix is tried first. */
  function MatchTail(s: string, caption: string): Option<Found> {
    match Skip(s, "](")
    case None => None
    case Some(address) =>
      var session := Skip(address, "dsh-session:");
      var prefixed := if session.Some? then MatchTarget(session.value, caption) else None;
      if prefixed.Some? then prefixed else MatchTarget(address, caption)
  }

  /** The line ends that `.` does not match. */
  predicate IsLineEnd(c: char) {
    c == '\n' || c == '\r' || c == '\U{2028}' || c == '\U{2029}'
  }

  /**
   * The repeated group of the label with its backtracking: a longer label is tried first, and an
   * escaped pair before a single character.
   */
  function MatchLabel(s: string, caption: string): Option<Found>
    decreases |s|
  {
    var pair := if |s| >= 2 && s[0] == '\\' && !IsLineEnd(s[1])
                then MatchLabel(s[2..], caption + s[..2]) else None;
    if pair.Some? then pair
    else
      var single := if s != "" && s[0] != ']' && s[0] != '\n'
                    then MatchLabel(s[1..], caption + [s[0]]) else None;
      if single.Some? then single
      else if caption != "" then MatchTail(s, caption) else None
  }

  function MatchAt(s: string): Option<Found> {
    match Skip(s, "@[")
    case Some(behind) => MatchLabel(behind, "")
    case None => None
  }

  /** Backslashes in front of a backslash or a closing bracket are dropped. */
  function UnescapeLabel(s: string): string {
    if s == "" then ""
    else if |s| >= 2 && s[0] == '\\' && (s[1] == '\\' || s[1] == ']') then [s[1]] + UnescapeLabel(s[2..])
    else [s[0]] + UnescapeLabel(s[1..])
  }

  datatype Node =
    | Plain
    | Resource(caption: string, resourceId: string, unitType: string)
    | Path(reference: Reference)

  /** A piece of the message and how it is shown. */
  datatype Part = Part(source: string, node: Node)

  function NodeOf(found: Found): Node {
    var caption := UnescapeLabel(found.caption);
    match ParseUrl(found.target)
    case None => Plain
    case Some(url) =>
      if url.scheme == RESOURCE_SCHEME then
        match DecodeComponent(url.pathname)
        case None => Plain
        case Some(id) =>
          var unitType := SearchParam(url.query, "unitType");
          Resource(caption, id, if unitType.Some? then unitType.value else "")
      else
        match PathReferenceFromUrl(found.target, caption)
        case Some(reference) => Path(reference)
        case None => Plain
  }

  function Gap(text: string): seq<Part> {
    if text == "" then [] else [Part(text, Plain)]
  }

  lemma MatchShortens(s: string)
    ensures MatchAt(s).Some? ==> |MatchAt(s).value.rest| < |s|
  {
    if "@[" <= s {
      LabelRest(s[2..], "");
    }
  }

  /** The parts of `gap + s`, where no match starts in `gap`. */
  function ScanFrom(s: string, gap: string): seq<Part>
    decreases |s|
  {
    MatchShortens(s);
    if s == "" then Gap(gap)
    else
      match MatchAt(s)
      case Some(found) =>
        Gap(gap) + [Part(s[..|s| - |found.rest|], NodeOf(found))] + ScanFrom(found.rest, "")
      case None => ScanFrom(s[1..], gap + [s[0]])
  }

  function Scan(text: string): seq<Part> {
    ScanFrom(text, "")
  }

  // ---------- The loop ----------

  /** `matchAll`: the first match at or behind `from`. */
  method NextMatch(text: string, from: nat) returns (start: nat, found: Option<Found>)
    requires from <= |text|
    ensures from <= start <= |text|
    ensures found == MatchAt(text[start..])
    ensures found.None? ==> start == |text|
    ensures forall gap :: ScanFrom(text[from..], gap) == ScanFrom(text[start..], gap + text[from..start])
  {
    start := from;
    found := MatchAt(text[start..]);
    assert forall gap: string :: gap + text[from..from] == gap;
    while found.None? && start < |text|
      invariant from <= start <= |text|
      invariant found == MatchAt(text[start..])
      invariant forall gap ::
        ScanFrom(text[from..], gap) == ScanFrom(text[start..], gap + text[from..start])
      decreases |text| - start
    {
      hide MatchAt;
      assert text[start..][1..] == text[start + 1..];
      assert forall gap: string ::
        gap + text[from..start] + [text[start]] == gap + text[from..start + 1];
      start := start + 1;
      found := MatchAt(text[start..]);
    }
  }

  lemma ScanFound(s: string, gap: string)
    requires MatchAt(s).Some?
    ensures
      var found := MatchAt(s).value;
      && |found.rest| < |s|
      && ScanFrom(s, gap)
         == Gap(gap) + [Part(s[..|s| - |found.rest|], NodeOf(found))] + ScanFrom(found.rest, "")
  {
    hide MatchLabel, NodeOf, Gap;
    MatchShortens(s);
  }

  /** One match: what is scanned up to it, and what is left. */
  lemma ScanMatch(text: string, cursor: nat, start: nat)
    requires cursor <= start <= |text| && MatchAt(text[start..]).Some?
    ensures
      var found := MatchAt(text[start..]).value;
      var end := |text| - |found.rest|;
      && start < end <= |text|
      && ScanFrom(text[start..], text[cursor..start])
         == Gap(text[cursor..start]) + [Part(text[start..end], NodeOf(found))] + ScanFrom(text[end..], "")
  {
    hide *;
    RestIsSuffix(text, start);
    ScanFound(text[start..], text[cursor..start]);
    var found := MatchAt(text[start..]).value;
    var end := |text| - |found.rest|;
    assert text[start..] != "";
    assert text[start..][..|text[start..]| - |found.rest|] == text[start..end];
  }

  lemma ScanNothing(gap: string)
    ensures ScanFrom("", gap) == Gap(gap)
  {
  }

  method RenderDisplayText(text: string) returns (parts: seq<Part>)
    ensures parts == Scan(text)
  {
    hide MatchAt, NodeOf, ScanFrom;
    parts := [];
    var cursor := 0;
    var start, found := NextMatch(text, 0);
    assert text[0..] == text && "" + text[0..start] == text[0..start];
    while found.Some?
      invariant cursor <= start <= |text|
      invariant found == MatchAt(text[start..])
      invariant found.None? ==> start == |text|
      invariant Scan(text) == parts + ScanFrom(text[start..], text[cursor..start])
      decreases |text| - cursor, if found.Some? then 1 else 0
    {
      ScanMatch(text, cursor, start);
      if start > cursor {
        parts := parts + [Part(text[cursor..start], Plain)];
      }
      var end := |text| - |found.value.rest|;
      parts := parts + [Part(text[start..end], NodeOf(found.value))];
      cursor := end;
      start, found := NextMatch(text, cursor);
      assert "" + text[cursor..start] == text[cursor..start];
    }
    ScanNothing(text[cursor..start]);
    assert text[start..] == "" && text[cursor..start] == text[cursor..];
    if cursor < |text| {
      parts := parts + [Part(text[cursor..], Plain)];
    }
  }

  lemma RestIsSuffix(text: string, start: nat)
    requires start <= |text| && MatchAt(text[start..]).Some?
    ensures
      var rest := MatchAt(text[start..]).value.rest;
      start < |text| - |rest| && rest == text[|text| - |rest|..]
  {
    var s := text[start..];
    LabelRest(s[2..], "");
    hide MatchLabel;
    var rest := MatchAt(s).value.rest;
    assert s[2..] == text[start + 2..];
  }

  /** What a match leaves is the end of the text it was tried on. */
  lemma {:induction false} LabelRest(s: string, caption: string)
    ensures
      var found := MatchLabel(s, caption);
      found.Some? ==> IsEndOf(found.value.rest, s)
    decreases |s|
  {
    hide MatchTail, IsLineEnd;
    TailRest(s, caption);
    if |s| >= 2 {
      LabelRest(s[2..], caption + s[..2]);
    }
    if s != "" {
      LabelRest(s[1..], caption + [s[0]]);
    }
  }

  predicate IsEndOf(rest: string, s: string) {
    |rest| < |s| && rest == s[|s| - |rest|..]
  }

  lemma EndOfEnd(rest: string, s: string, n: nat)
    requires n <= |s| && IsEndOf(rest, s[n..])
    ensures IsEndOf(rest, s)
  {
  }

  lemma SchemeRest(s: string, scheme: string, caption: string)
    ensures
      var found := MatchScheme(s, scheme, caption);
      found.Some? ==> IsEndOf(found.value.rest, s)
  {
    if Skip(s, scheme + ":").Some? {
      var behind := Skip(s, scheme + ":").value;
      var run := TargetRun(behind);
      if |run| < |behind| {
        assert IsEndOf(behind[|run| + 1..], behind);
        EndOfEnd(behind[|run| + 1..], s, |scheme + ":"|);
      }
    }
  }

  lemma TargetRest(s: string, caption: string)
    ensures
      var found := MatchTarget(s, caption);
      found.Some? ==> IsEndOf(found.value.rest, s)
  {
    hide MatchScheme;
    SchemeRest(s, RESOURCE_SCHEME, caption);
    SchemeRest(s, FOLDER_SCHEME, caption);
    SchemeRest(s, LOCAL_SCHEME, caption);
  }

  lemma TailRest(s: string, caption: string)
    ensures
      var found := MatchTail(s, caption);
      found.Some? ==> IsEndOf(found.value.rest, s)
  {
    hide MatchTarget;
    if "](" <= s {
      TargetRest(s[2..], caption);
      if "dsh-session:" <= s[2..] {
        var behind := s[2..][|"dsh-session:"|..];
        TargetRest(behind, caption);
        if MatchTarget(behind, caption).Some? {
          EndOfEnd(MatchTarget(behind, caption).value.rest, s[2..], |"dsh-session:"|);
        }
      }
      if MatchTail(s, caption).Some? {
        EndOfEnd(MatchTail(s, caption).value.rest, s, 2);
      }
    }
  }
}
