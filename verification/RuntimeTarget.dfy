/** Runtime targets and the key under which their runtimes are pooled (runtime-target.ts). */
module RuntimeTarget {
  import opened Wrappers
  import opened Percent

  datatype Scope = Trunk | Worktree(worktreeId: string)

  datatype UnitType = Sheet | Doc | Slide | Base | Board

  datatype Target =
    Target(origin: string, revision: nat, scope: Scope, unitId: string, unitType: UnitType)

  function UnitTypeName(t: UnitType): string {
    match t
    case Sheet => "sheet"
    case Doc => "doc"
    case Slide => "slide"
    case Base => "base"
    case Board => "board"
  }

  function ScopeKey(scope: Scope): string {
    match scope
    case Trunk => "trunk"
    case Worktree(id) => "worktree:" + EncodeComponent(id)
  }

  /** `workspaceRuntimeKey` */
  function RuntimeKey(t: Target): string {
    "workspace" + ":" + (EncodeComponent(t.origin) + ":" + (ScopeKey(t.scope) + ":"
    + (EncodeComponent(t.unitId) + ":" + UnitTypeName(t.unitType))))
  }

  predicate Within(s: string) {
    ':' !in s
  }

  /** The text up to the first colon can be told from the rest. */
  lemma SplitAtColon(a: string, x: string, b: string, y: string)
    requires Within(a) && Within(b)
    requires a + ":" + x == b + ":" + y
    ensures a == b && x == y
  {
    var s := a + ":" + x;
    assert s == b + ":" + y;
    assert s[|a|] == ':' && s[|b|] == ':';
    assert a == s[..|a|] && b == s[..|b|];
    assert x == s[|a| + 1..] && y == s[|b| + 1..];
  }

  lemma NoColon(s: string)
    ensures Within(EncodeComponent(s))
  {
    EncodedCharacters(s);
  }

  lemma TailInjective(a: Target, b: Target)
    requires EncodeComponent(a.unitId) + ":" + UnitTypeName(a.unitType)
             == EncodeComponent(b.unitId) + ":" + UnitTypeName(b.unitType)
    ensures a.unitId == b.unitId && a.unitType == b.unitType
  {
    NoColon(a.unitId);
    NoColon(b.unitId);
    SplitAtColon(EncodeComponent(a.unitId), UnitTypeName(a.unitType),
                 EncodeComponent(b.unitId), UnitTypeName(b.unitType));
    EncodeInjective(a.unitId, b.unitId);
  }

  lemma ScopeInjective(s: Scope, x: string, t: Scope, y: string)
    requires ScopeKey(s) + ":" + x == ScopeKey(t) + ":" + y
    ensures s == t && x == y
  {
    hide EncodeComponent;
    ScopeStart(s, x);
    ScopeStart(t, y);
    match (s, t)
    case (Worktree(i), Worktree(j)) =>
      var e, f := EncodeComponent(i), EncodeComponent(j);
      NoColon(i);
      NoColon(j);
      hide *;
      WorktreeTail(e, x, f, y);
      EncodeInjective(i, j);
    case (Trunk, Trunk) => SplitAtColon("trunk", x, "trunk", y);
    case _ =>
  }

  lemma ScopeStart(s: Scope, x: string)
    ensures (ScopeKey(s) + ":" + x)[0] == if s.Trunk? then 't' else 'w'
  {}

  lemma WorktreeTail(e: string, x: string, f: string, y: string)
    requires Within(e) && Within(f)
    requires "worktree:" + e + ":" + x == "worktree:" + f + ":" + y
    ensures e == f && x == y
  {
    var full := "worktree:" + e + ":" + x;
    assert full[9..] == e + ":" + x;
    assert full == "worktree:" + f + ":" + y;
    assert full[9..] == f + ":" + y;
    SplitAtColon(e, x, f, y);
  }

  /** Two targets share a queue exactly when they agree in all but the revision. */
  lemma SameKeyExactly(a: Target, b: Target)
    ensures RuntimeKey(a) == RuntimeKey(b)
            <==> a.origin == b.origin && a.scope == b.scope && a.unitId == b.unitId
                 && a.unitType == b.unitType
  {
    if RuntimeKey(a) == RuntimeKey(b) {
      var lastA := EncodeComponent(a.unitId) + ":" + UnitTypeName(a.unitType);
      var lastB := EncodeComponent(b.unitId) + ":" + UnitTypeName(b.unitType);
      var restA, restB := ScopeKey(a.scope) + ":" + lastA, ScopeKey(b.scope) + ":" + lastB;
      SplitAtColon("workspace", EncodeComponent(a.origin) + ":" + restA,
                   "workspace", EncodeComponent(b.origin) + ":" + restB);
      NoColon(a.origin);
      NoColon(b.origin);
      SplitAtColon(EncodeComponent(a.origin), restA, EncodeComponent(b.origin), restB);
      EncodeInjective(a.origin, b.origin);
      ScopeInjective(a.scope, lastA, b.scope, lastB);
      TailInjective(a, b);
    }
  }
}
