/**
 * The Units that a Unit refers to (render-unit.ts): merging the declarations of embedded Units,
 * in whatever order they come, and selecting what is loaded beside the host.
 */
module EmbeddedUnits {
  import opened Wrappers
  import opened Sequences
  import opened Strings

  // ---------- The order of ids ----------

  /**
   * `Array.prototype.sort` compares UTF-16 code units: characters beyond the basic plane, written
   * with surrogates, come before those from U+E000 on.
   */
  function Rank(c: char): nat {
    var n := c as int;
    if n < 0xE000 then n else if n < 0x1_0000 then n + 0x20_0000 else n
  }

  predicate Below(a: string, b: string) {
    if b == "" then false
    else if a == "" then true
    else if a[0] == b[0] then Below(a[1..], b[1..])
    else Rank(a[0]) < Rank(b[0])
  }

  /** The UTF-16 code units of a character, and of a text. */
  function CodeUnits(c: char): (units: seq<int>)
    ensures 1 <= |units| <= 2
  {
    var n := c as int;
    if n < 0x1_0000 then [n]
    else [0xD800 + (n - 0x1_0000) / 0x400, 0xDC00 + (n - 0x1_0000) % 0x400]
  }

  function Utf16(s: string): seq<int> {
    if s == "" then [] else CodeUnits(s[0]) + Utf16(s[1..])
  }

  /** At the first place where they differ, one has ended or has the smaller unit. */
  ghost predicate Precedes(a: seq<int>, b: seq<int>) {
    exists k :: DiffersAt(a, b, k)
  }

  predicate DiffersAt(a: seq<int>, b: seq<int>, k: int) {
    && 0 <= k <= |a| && k < |b| && (forall i | 0 <= i < k :: a[i] == b[i])
    && (k == |a| || a[k] < b[k])
  }

  lemma PrecedesFirst(a: seq<int>, b: seq<int>)
    ensures b == [] ==> !Precedes(a, b)
    ensures a == [] && b != [] ==> Precedes(a, b)
    ensures a != [] && b != [] && a[0] != b[0] ==> (Precedes(a, b) <==> a[0] < b[0])
    ensures a != [] && b != [] && a[0] == b[0] ==> (Precedes(a, b) <==> Precedes(a[1..], b[1..]))
  {
    if b != [] && (a == [] || a[0] < b[0]) {
      assert DiffersAt(a, b, 0);
    }
    if a != [] && b != [] && a[0] == b[0] {
      if k :| DiffersAt(a, b, k) {
        assert k > 0;
        assert DiffersAt(a[1..], b[1..], k - 1);
      }
      if k :| DiffersAt(a[1..], b[1..], k) {
        assert forall i | 1 <= i < k + 1 :: a[i] == a[1..][i - 1] && b[i] == b[1..][i - 1];
        assert DiffersAt(a, b, k + 1);
      }
    }
  }

  lemma RankIsByUnits(c: char, d: char)
    requires c != d
    ensures
      var x, y := CodeUnits(c), CodeUnits(d);
      if x[0] != y[0] then Rank(c) < Rank(d) <==> x[0] < y[0]
      else |x| == 2 && |y| == 2 && x[1] != y[1] && (Rank(c) < Rank(d) <==> x[1] < y[1])
  {
    var m, n := c as int, d as int;
    if m >= 0x1_0000 && n >= 0x1_0000 {
      assert m - 0x1_0000 == (m - 0x1_0000) / 0x400 * 0x400 + (m - 0x1_0000) % 0x400;
      assert n - 0x1_0000 == (n - 0x1_0000) / 0x400 * 0x400 + (n - 0x1_0000) % 0x400;
    }
  }

  /** The order of ids is that of their UTF-16 code units. */
  lemma {:induction false} BelowExactly(a: string, b: string)
    ensures Below(a, b) <==> Precedes(Utf16(a), Utf16(b))
  {
    hide Precedes, CodeUnits, Rank;
    PrecedesFirst(Utf16(a), Utf16(b));
    if a != "" && b != "" {
      BelowExactly(a[1..], b[1..]);
      if a[0] == b[0] {
        SamePrefix(CodeUnits(a[0]), Utf16(a[1..]), Utf16(b[1..]));
      } else {
        RankIsByUnits(a[0], b[0]);
        OtherPrefix(CodeUnits(a[0]), CodeUnits(b[0]), Utf16(a[1..]), Utf16(b[1..]));
      }
    }
  }

  lemma SamePrefix(x: seq<int>, a: seq<int>, b: seq<int>)
    requires 1 <= |x| <= 2
    ensures Precedes(x + a, x + b) <==> Precedes(a, b)
  {
    hide Precedes;
    PrecedesFirst(x + a, x + b);
    FirstOfConcat(x, a);
    FirstOfConcat(x, b);
    if |x| == 2 {
      PrecedesFirst(x[1..] + a, x[1..] + b);
      FirstOfConcat(x[1..], a);
      FirstOfConcat(x[1..], b);
      assert x[1..][1..] + a == a && x[1..][1..] + b == b;
    } else {
      assert x[1..] + a == a && x[1..] + b == b;
    }
  }

  lemma OtherPrefix(x: seq<int>, y: seq<int>, a: seq<int>, b: seq<int>)
    requires 1 <= |x| <= 2 && 1 <= |y| <= 2
    requires x[0] == y[0] ==> |x| == 2 && |y| == 2 && x[1] != y[1]
    ensures Precedes(x + a, y + b) <==> if x[0] != y[0] then x[0] < y[0] else x[1] < y[1]
  {
    hide Precedes;
    PrecedesFirst(x + a, y + b);
    FirstOfConcat(x, a);
    FirstOfConcat(y, b);
    if x[0] == y[0] {
      PrecedesFirst(x[1..] + a, y[1..] + b);
      FirstOfConcat(x[1..], a);
      FirstOfConcat(y[1..], b);
    }
  }

  lemma {:induction false} BelowIsTotal(a: string, b: string)
    ensures a == b || Below(a, b) || Below(b, a)
    ensures !(Below(a, b) && Below(b, a)) && !Below(a, a)
  {
    if a != "" && b != "" && a[0] == b[0] {
      BelowIsTotal(a[1..], b[1..]);
      assert a == [a[0]] + a[1..] && b == [b[0]] + b[1..];
    }
    if a != "" {
      BelowIsTotal(a[1..], a[1..]);
    }
  }

  lemma {:induction false} BelowIsTransitive(a: string, b: string, c: string)
    requires Below(a, b) && Below(b, c)
    ensures Below(a, c)
  {
    if a != "" && a[0] == b[0] && b[0] == c[0] {
      BelowIsTransitive(a[1..], b[1..], c[1..]);
    }
  }

  predicate Sorted(ids: seq<string>) {
    forall i, j | 0 <= i < j < |ids| :: Below(ids[i], ids[j])
  }

  function Insert(id: string, ids: seq<string>): seq<string> {
    if ids == [] || Below(id, ids[0]) then [id] + ids else [ids[0]] + Insert(id, ids[1..])
  }

  lemma {:induction false} InsertIsSorted(id: string, ids: seq<string>)
    requires Sorted(ids) && id !in ids
    ensures Sorted(Insert(id, ids))
    ensures forall x :: x in Insert(id, ids) <==> x == id || x in ids
  {
    if ids == [] {
    } else if Below(id, ids[0]) {
      forall j | 0 <= j < |ids| ensures Below(id, ids[j]) {
        if j > 0 {
          BelowIsTransitive(id, ids[0], ids[j]);
        }
      }
    } else {
      var rest := Insert(id, ids[1..]);
      InsertIsSorted(id, ids[1..]);
      BelowIsTotal(id, ids[0]);
      forall j | 0 <= j < |rest| ensures Below(ids[0], rest[j]) {
        assert rest[j] in rest;
      }
      assert forall x | x in ids :: x == ids[0] || x in ids[1..];
    }
  }

  /** The keys of a map, sorted: inserted one by one in the order of their first declaration. */
  function SortAll(ids: seq<string>): seq<string> {
    if ids == [] then [] else Insert(ids[|ids| - 1], SortAll(ids[..|ids| - 1]))
  }

  predicate NoneTwice(ids: seq<string>) {
    forall i, j | 0 <= i < j < |ids| :: ids[i] != ids[j]
  }

  lemma {:induction false} SortAllSorts(ids: seq<string>)
    requires NoneTwice(ids)
    ensures Sorted(SortAll(ids))
    ensures forall x :: x in SortAll(ids) <==> x in ids
  {
    if ids != [] {
      var last := ids[|ids| - 1];
      SortAllSorts(ids[..|ids| - 1]);
      InsertIsSorted(last, SortAll(ids[..|ids| - 1]));
      assert ids == ids[..|ids| - 1] + [last];
    }
  }

  /** A set of ids has one sorted listing. */
  lemma {:induction false} SortedIsUnique(a: seq<string>, b: seq<string>)
    requires Sorted(a) && Sorted(b)
    requires forall x :: x in a <==> x in b
    ensures a == b
    decreases |a|
  {
    assert a != [] ==> a[0] in a;
    assert b != [] ==> b[0] in b;
    if a != [] && b != [] {
      FirstsAgree(a, b);
      TailsAgree(a, b);
      TailsAgree(b, a);
      SortedIsUnique(a[1..], b[1..]);
      assert a == [a[0]] + a[1..] && b == [b[0]] + b[1..];
    }
  }

  lemma FirstsAgree(a: seq<string>, b: seq<string>)
    requires Sorted(a) && Sorted(b) && a != [] && b != []
    requires forall x :: x in a <==> x in b
    ensures a[0] == b[0]
  {
    assert a[0] in b && b[0] in a;
    var i :| 0 <= i < |b| && b[i] == a[0];
    var j :| 0 <= j < |a| && a[j] == b[0];
    BelowIsTotal(a[0], b[0]);
  }

  lemma TailsAgree(a: seq<string>, b: seq<string>)
    requires Sorted(a) && Sorted(b) && a != [] && b != [] && a[0] == b[0]
    requires forall x :: x in a <==> x in b
    ensures forall x | x in a[1..] :: x in b[1..]
  {
    forall x | x in a[1..] ensures x in b[1..] {
      assert x in a && x in b;
      BelowIsTotal(x, x);
      assert b == [b[0]] + b[1..];
    }
  }

  // ---------- Declarations ----------

  /** The `type` member of a structured reference. */
  datatype TypeField = NoType | TypeText(text: string) | BadType

  /** The `source` of a descriptor; its reference is a text, structured, or neither. */
  datatype Source =
    | NoSource
    | TextReference(text: string)
    | UnitReference(selector: Option<string>, unitType: TypeField)
    | OtherReference

  datatype Descriptor =
    | NoRecord
    | Record(softDeleted: bool, childUnitId: Option<string>, source: Source)

  /** A resource of another kind, one whose data is not as expected, or a list of descriptors. */
  datatype Resource = Foreign | Malformed | Embeds(descriptors: seq<Descriptor>)

  datatype Child = Child(unitId: string, unitType: Option<string>)

  /** `parseResourceRef`: selector and type of a textual reference, or nothing where it throws. */
  type Parser = string -> Option<(string, string)>

  /** `embedChildUnitReference` and the checks behind it: nothing where they throw. */
  function ChildOf(parse: Parser, d: Descriptor): (child: Option<Child>)
    requires d.Record?
    ensures child.Some? ==> child.value.unitId != "" && Trimmed(child.value.unitId)
    ensures child.Some? && child.value.unitType.Some? ==> d.childUnitId.None?
  {
    if d.childUnitId.Some? then
      TrimTwice(d.childUnitId.value);
      NamedChild(Trim(d.childUnitId.value), None)
    else
      match d.source
      case TextReference(text) =>
        (match parse(text)
         case Some((selector, unitType)) =>
           TrimTwice(selector);
           NamedChild(Trim(selector), Some(unitType))
         case None => None)
      case UnitReference(Some(selector), unitType) =>
        TrimTwice(selector);
        (match unitType
         case NoType => NamedChild(Trim(selector), None)
         case TypeText(text) => if Trim(text) == "" then None else NamedChild(Trim(selector), Some(text))
         case BadType => None)
      case _ => None
  }

  function NamedChild(unitId: string, unitType: Option<string>): Option<Child> {
    if unitId == "" then None else Some(Child(unitId, unitType))
  }

  /** What a descriptor adds: nothing when it is deleted, else a child or the error it throws. */
  function EntryOf(parse: Parser, d: Descriptor): seq<Option<Child>> {
    if d.NoRecord? then [None]
    else if d.softDeleted then []
    else [ChildOf(parse, d)]
  }

  function EntriesOf(parse: Parser, descriptors: seq<Descriptor>): seq<Option<Child>> {
    if descriptors == [] then []
    else EntriesOf(parse, descriptors[..|descriptors| - 1]) + EntryOf(parse, descriptors[|descriptors| - 1])
  }

  function ResourceEntries(parse: Parser, r: Resource): seq<Option<Child>> {
    match r
    case Foreign => []
    case Malformed => [None]
    case Embeds(descriptors) => EntriesOf(parse, descriptors)
  }

  function Entries(parse: Parser, resources: seq<Resource>): seq<Option<Child>> {
    if resources == [] then []
    else Entries(parse, resources[..|resources| - 1]) + ResourceEntries(parse, resources[|resources| - 1])
  }

  // ---------- Merging ----------

  /** The map of the loop and the order in which its keys came in. */
  datatype Merged = Merged(types: map<string, Option<string>>, order: seq<string>)

  function Add(m: Merged, child: Child): Option<Merged> {
    var known := child.unitId in m.types;
    var existing := if known then m.types[child.unitId] else None;
    if existing.Some? && child.unitType.Some? && existing != child.unitType then None
    else if !known then Some(Merged(m.types[child.unitId := child.unitType], m.order + [child.unitId]))
    else if existing.None? && child.unitType.Some? then
      Some(m.(types := m.types[child.unitId := child.unitType]))
    else Some(m)
  }

  /** The map after all entries, or nothing where one of them throws. */
  function Merge(entries: seq<Option<Child>>): Option<Merged> {
    if entries == [] then Some(Merged(map[], []))
    else
      match Merge(entries[..|entries| - 1])
      case None => None
      case Some(m) =>
        match entries[|entries| - 1]
        case None => None
        case Some(child) => Add(m, child)
  }

  /** The sorted listing of a merged map. */
  function Listing(m: Merged): seq<Child> {
    var ids := SortAll(m.order);
    seq(|ids|, i requires 0 <= i < |ids| =>
      Child(ids[i], if ids[i] in m.types then m.types[ids[i]] else None))
  }

  predicate Declares(entries: seq<Option<Child>>, unitId: string) {
    exists entry | entry in entries :: entry.Some? && entry.value.unitId == unitId
  }

  predicate DeclaresType(entries: seq<Option<Child>>, unitId: string, unitType: string) {
    Some(Child(unitId, Some(unitType))) in entries
  }

  /** No entry throws, and no Unit is declared with two types. */
  ghost predicate Consistent(entries: seq<Option<Child>>) {
    && None !in entries
    && forall unitId, a, b | DeclaresType(entries, unitId, a) && DeclaresType(entries, unitId, b) :: a == b
  }

  /** The map has the declared Units, each with the type that some declaration gives it. */
  ghost predicate Represents(m: Merged, entries: seq<Option<Child>>) {
    && (forall unitId :: unitId in m.types <==> Declares(entries, unitId))
    && (forall unitId, unitType | unitId in m.types ::
          m.types[unitId] == Some(unitType) <==> DeclaresType(entries, unitId, unitType))
    && NoneTwice(m.order)
    && (forall unitId :: unitId in m.order <==> unitId in m.types)
  }

  lemma DeclaresMore(entries: seq<Option<Child>>, child: Child)
    ensures
      var more := entries + [Some(child)];
      && (forall unitId :: Declares(more, unitId) <==> Declares(entries, unitId) || unitId == child.unitId)
      && (forall unitId, unitType :: DeclaresType(more, unitId, unitType)
            <==> DeclaresType(entries, unitId, unitType) || child == Child(unitId, Some(unitType)))
  {
    var more := entries + [Some(child)];
    assert Some(child) in more;
    assert forall entry :: entry in entries ==> entry in more;
    assert forall entry :: entry in more ==> entry in entries || entry == Some(child);
  }

  /** Merging fails exactly where the declarations are not consistent. */
  lemma {:induction false} MergeExactly(entries: seq<Option<Child>>)
    ensures Merge(entries).Some? <==> Consistent(entries)
    ensures Merge(entries).Some? ==> Represents(Merge(entries).value, entries)
  {
    if entries != [] {
      var before, entry := entries[..|entries| - 1], entries[|entries| - 1];
      assert entries == before + [entry];
      MergeExactly(before);
      if entry.None? {
        assert None in entries;
      } else {
        DeclaresMore(before, entry.value);
        hide Merge;
        MergeStep(entries);
        AddExactly(before, entry.value);
      }
    }
  }

  lemma MergeStep(entries: seq<Option<Child>>)
    requires entries != [] && entries[|entries| - 1].Some?
    ensures
      var m := Merge(entries[..|entries| - 1]);
      Merge(entries) == if m.None? then None else Add(m.value, entries[|entries| - 1].value)
  {
  }

  lemma AddExactly(before: seq<Option<Child>>, child: Child)
    requires Merge(before).Some? <==> Consistent(before)
    requires Merge(before).Some? ==> Represents(Merge(before).value, before)
    ensures
      var entries, m := before + [Some(child)], Merge(before);
      var after := if m.None? then None else Add(m.value, child);
      && (after.Some? <==> Consistent(entries))
      && (after.Some? ==> Represents(after.value, entries))
  {
    hide Merge;
    var entries, m := before + [Some(child)], Merge(before);
    DeclaresMore(before, child);
    assert forall entry :: entry in before ==> entry in entries;
    if m.Some? {
      AddConsistent(m.value, before, child);
      if Add(m.value, child).Some? {
        AddRepresents(m.value, before, child);
      }
    } else if Consistent(entries) {
      LessConsistent(before, child);
    }
  }

  lemma LessConsistent(before: seq<Option<Child>>, child: Child)
    requires Consistent(before + [Some(child)])
    ensures Consistent(before)
  {
    DeclaresMore(before, child);
    hide DeclaresType, Declares;
  }

  lemma TypedIsDeclared(entries: seq<Option<Child>>)
    ensures forall unitId, unitType | DeclaresType(entries, unitId, unitType) :: Declares(entries, unitId)
  {
  }

  lemma AddConsistent(m: Merged, before: seq<Option<Child>>, child: Child)
    requires Represents(m, before) && Consistent(before)
    ensures Add(m, child).Some? <==> Consistent(before + [Some(child)])
  {
    DeclaresMore(before, child);
    TypedIsDeclared(before);
    hide DeclaresType, Declares, NoneTwice;
    var entries, id := before + [Some(child)], child.unitId;
    if Add(m, child).Some? {
      forall unitId, a, b | DeclaresType(entries, unitId, a) && DeclaresType(entries, unitId, b)
        ensures a == b
      {
        assert DeclaresType(before, unitId, a) ==> m.types[unitId] == Some(a);
        assert DeclaresType(before, unitId, b) ==> m.types[unitId] == Some(b);
      }
    } else {
      assert DeclaresType(before, id, m.types[id].value);
      assert DeclaresType(entries, id, m.types[id].value);
      assert DeclaresType(entries, id, child.unitType.value);
    }
  }

  lemma AddRepresents(m: Merged, before: seq<Option<Child>>, child: Child)
    requires Represents(m, before) && Add(m, child).Some?
    ensures Represents(Add(m, child).value, before + [Some(child)])
  {
    DeclaresMore(before, child);
    TypedIsDeclared(before);
    hide DeclaresType, Declares;
    var after, entries := Add(m, child).value, before + [Some(child)];
    forall unitId, unitType | unitId in after.types
      ensures after.types[unitId] == Some(unitType) <==> DeclaresType(entries, unitId, unitType)
    {
      assert unitId in m.types ==>
               (m.types[unitId] == Some(unitType) <==> DeclaresType(before, unitId, unitType));
      assert unitId !in m.types ==> !DeclaresType(before, unitId, unitType);
    }
  }

  // ---------- The order does not matter ----------

  function IdsOf(children: seq<Child>): (ids: seq<string>)
    ensures |ids| == |children|
    ensures forall i | 0 <= i < |children| :: ids[i] == children[i].unitId
  {
    seq(|children|, i requires 0 <= i < |children| => children[i].unitId)
  }

  /** The listing is sorted and free of repetitions, and has exactly what is declared. */
  lemma ListingExactly(entries: seq<Option<Child>>)
    requires Merge(entries).Some?
    ensures
      var children := Listing(Merge(entries).value);
      && Sorted(IdsOf(children))
      && (forall unitId :: unitId in IdsOf(children) <==> Declares(entries, unitId))
      && forall i, unitType | 0 <= i < |children| ::
           children[i].unitType == Some(unitType) <==> DeclaresType(entries, children[i].unitId, unitType)
  {
    MergeExactly(entries);
    hide Merge, Declares, DeclaresType, Consistent;
    var m := Merge(entries).value;
    SortAllSorts(m.order);
    assert IdsOf(Listing(m)) == SortAll(m.order);
    forall i, unitType | 0 <= i < |Listing(m)|
      ensures Listing(m)[i].unitType == Some(unitType)
              <==> DeclaresType(entries, Listing(m)[i].unitId, unitType)
    {
      assert SortAll(m.order)[i] in SortAll(m.order);
    }
  }

  /** Every permutation of the declarations is accepted or rejected alike, with the same listing. */
  lemma MergeIgnoresOrder(a: seq<Option<Child>>, b: seq<Option<Child>>)
    requires multiset(a) == multiset(b)
    ensures Merge(a).Some? <==> Merge(b).Some?
    ensures Merge(a).Some? ==> Listing(Merge(a).value) == Listing(Merge(b).value)
  {
    SameDeclarations(a, b);
    MergeExactly(a);
    MergeExactly(b);
    hide Merge, Declares, DeclaresType;
    if Merge(a).Some? {
      SameListing(a, b);
    }
  }

  lemma SameDeclarations(a: seq<Option<Child>>, b: seq<Option<Child>>)
    requires multiset(a) == multiset(b)
    ensures forall unitId :: Declares(a, unitId) <==> Declares(b, unitId)
    ensures forall unitId, unitType :: DeclaresType(a, unitId, unitType) <==> DeclaresType(b, unitId, unitType)
    ensures None in a <==> None in b
  {
    assert forall entry :: entry in a <==> entry in multiset(a);
    assert forall entry :: entry in b <==> entry in multiset(b);
  }

  lemma SameListing(a: seq<Option<Child>>, b: seq<Option<Child>>)
    requires multiset(a) == multiset(b) && Merge(a).Some? && Merge(b).Some?
    ensures Listing(Merge(a).value) == Listing(Merge(b).value)
  {
    SameDeclarations(a, b);
    ListingExactly(a);
    ListingExactly(b);
    hide Merge, Declares, DeclaresType, Listing, Sorted;
    var x, y := Listing(Merge(a).value), Listing(Merge(b).value);
    SortedIsUnique(IdsOf(x), IdsOf(y));
    forall i | 0 <= i < |x| ensures x[i] == y[i] {
      assert IdsOf(x)[i] == IdsOf(y)[i];
      if x[i].unitType.Some? {
        assert x[i].unitType == Some(x[i].unitType.value);
        assert DeclaresType(a, x[i].unitId, x[i].unitType.value);
      }
      if y[i].unitType.Some? {
        assert y[i].unitType == Some(y[i].unitType.value);
        assert DeclaresType(b, y[i].unitId, y[i].unitType.value);
      }
    }
  }

  /** A permutation has the first element at some place, and permutes the others. */
  lemma SamePlace<T>(a: seq<T>, b: seq<T>) returns (i: nat)
    requires multiset(a) == multiset(b) && a != []
    ensures i < |b| && b[i] == a[0]
    ensures [] + [a[0]] + a[1..] == a && b[..i] + [a[0]] + b[i + 1..] == b
    ensures multiset(a[1..]) == multiset(b[..i] + b[i + 1..])
  {
    assert a[0] in multiset(a) && a[0] in b;
    i :| 0 <= i < |b| && b[i] == a[0];
    assert a == [] + [a[0]] + a[1..] && [] + a[1..] == a[1..];
    assert b == b[..i] + [a[0]] + b[i + 1..];
    OneOut([], a[0], a[1..]);
    OneOut(b[..i], a[0], b[i + 1..]);
    SameRest(multiset(a[1..]), multiset(b[..i] + b[i + 1..]), a[0]);
  }

  lemma OneOut<T>(a: seq<T>, x: T, b: seq<T>)
    ensures multiset(a + [x] + b) == multiset(a + b) + multiset{x}
  {
  }

  lemma SameRest<T>(a: multiset<T>, b: multiset<T>, x: T)
    requires a + multiset{x} == b + multiset{x}
    ensures a == b
  {
    assert a == a + multiset{x} - multiset{x};
    assert b == b + multiset{x} - multiset{x};
  }

  lemma {:induction false} EntriesWithout(parse: Parser, a: seq<Resource>, r: Resource, b: seq<Resource>)
    ensures multiset(Entries(parse, a + [r] + b))
            == multiset(Entries(parse, a + b)) + multiset(ResourceEntries(parse, r))
    decreases |b|
  {
    hide ResourceEntries;
    if b == [] {
      assert a + [r] + b == a + [r] && a + b == a;
      assert (a + [r])[..|a|] == a;
    } else {
      var front, last := b[..|b| - 1], b[|b| - 1];
      EntriesWithout(parse, a, r, front);
      assert (a + [r] + b)[..|a + [r] + b| - 1] == a + [r] + front;
      assert (a + b)[..|a + b| - 1] == a + front;
    }
  }

  lemma {:induction false} ResourcesReordered(parse: Parser, a: seq<Resource>, b: seq<Resource>)
    requires multiset(a) == multiset(b)
    ensures multiset(Entries(parse, a)) == multiset(Entries(parse, b))
    decreases |a|
  {
    if a == [] {
      assert |multiset(b)| == 0;
    } else {
      hide Entries, ResourceEntries;
      var i := SamePlace(a, b);
      EntriesWithout(parse, [], a[0], a[1..]);
      EntriesWithout(parse, b[..i], a[0], b[i + 1..]);
      assert [] + a[1..] == a[1..];
      ResourcesReordered(parse, a[1..], b[..i] + b[i + 1..]);
    }
  }

  lemma {:induction false} DescriptorsWithout(parse: Parser, a: seq<Descriptor>, d: Descriptor,
                                              b: seq<Descriptor>)
    ensures multiset(EntriesOf(parse, a + [d] + b))
            == multiset(EntriesOf(parse, a + b)) + multiset(EntryOf(parse, d))
    decreases |b|
  {
    hide EntryOf;
    if b == [] {
      assert a + [d] + b == a + [d] && a + b == a;
      assert (a + [d])[..|a|] == a;
    } else {
      var front, last := b[..|b| - 1], b[|b| - 1];
      DescriptorsWithout(parse, a, d, front);
      assert (a + [d] + b)[..|a + [d] + b| - 1] == a + [d] + front;
      assert (a + b)[..|a + b| - 1] == a + front;
    }
  }

  lemma {:induction false} DescriptorsReordered(parse: Parser, a: seq<Descriptor>, b: seq<Descriptor>)
    requires multiset(a) == multiset(b)
    ensures multiset(EntriesOf(parse, a)) == multiset(EntriesOf(parse, b))
    decreases |a|
  {
    if a == [] {
      assert |multiset(b)| == 0;
    } else {
      hide EntriesOf, EntryOf;
      var i := SamePlace(a, b);
      DescriptorsWithout(parse, [], a[0], a[1..]);
      DescriptorsWithout(parse, b[..i], a[0], b[i + 1..]);
      assert [] + a[1..] == a[1..];
      DescriptorsReordered(parse, a[1..], b[..i] + b[i + 1..]);
    }
  }

  /** The same resource with its descriptors in another order. */
  predicate SameUpToOrder(r: Resource, other: Resource) {
    || r == other
    || (r.Embeds? && other.Embeds? && multiset(r.descriptors) == multiset(other.descriptors))
  }

  predicate EachUpToOrder(a: seq<Resource>, b: seq<Resource>) {
    |a| == |b| && forall i | 0 <= i < |a| :: SameUpToOrder(a[i], b[i])
  }

  lemma {:induction false} EachReordered(parse: Parser, a: seq<Resource>, b: seq<Resource>)
    requires EachUpToOrder(a, b)
    ensures multiset(Entries(parse, a)) == multiset(Entries(parse, b))
    decreases |a|
  {
    if a != [] {
      var n := |a| - 1;
      EachReordered(parse, a[..n], b[..n]);
      assert SameUpToOrder(a[n], b[n]);
      if a[n] != b[n] {
        DescriptorsReordered(parse, a[n].descriptors, b[n].descriptors);
      }
      hide EntriesOf;
    }
  }

  /** What `embeddedUnitReferences` returns, or nothing where it throws. */
  function References(parse: Parser, resources: seq<Resource>): Option<seq<Child>> {
    match Merge(Entries(parse, resources))
    case Some(m) => Some(Listing(m))
    case None => None
  }

  /** Neither the order of the resources nor that of the descriptors in each changes the result. */
  lemma OrderDoesNotMatter(parse: Parser, a: seq<Resource>, mixed: seq<Resource>, b: seq<Resource>)
    requires EachUpToOrder(a, mixed) && multiset(mixed) == multiset(b)
    ensures References(parse, a) == References(parse, b)
  {
    EachReordered(parse, a, mixed);
    ResourcesReordered(parse, mixed, b);
    MergeIgnoresOrder(Entries(parse, a), Entries(parse, b));
    hide Entries, Merge, Listing;
  }

  // ---------- The listing in terms of the descriptors ----------

  /** A descriptor that is not deleted points to this Unit, with or without a type. */
  predicate Points(parse: Parser, d: Descriptor, unitId: string, unitType: Option<string>) {
    && d.Record? && !d.softDeleted && unitId != ""
    && match d.childUnitId
       case Some(given) => Trim(given) == unitId && unitType == None
       case None =>
         match d.source
         case TextReference(text) =>
           parse(text).Some? && Trim(parse(text).value.0) == unitId && unitType == Some(parse(text).value.1)
         case UnitReference(Some(selector), NoType) => Trim(selector) == unitId && unitType == None
         case UnitReference(Some(selector), TypeText(text)) =>
           Trim(selector) == unitId && Trim(text) != "" && unitType == Some(text)
         case _ => false
  }

  /** It is no record, or it is not deleted and points nowhere. */
  ghost predicate Broken(parse: Parser, d: Descriptor) {
    d.NoRecord? || (!d.softDeleted && forall unitId, unitType :: !Points(parse, d, unitId, unitType))
  }

  lemma EntryInFull(parse: Parser, d: Descriptor)
    ensures forall unitId, unitType ::
              Some(Child(unitId, unitType)) in EntryOf(parse, d) <==> Points(parse, d, unitId, unitType)
    ensures None in EntryOf(parse, d) <==> Broken(parse, d)
  {
    hide Trim;
    if d.Record? && !d.softDeleted {
      match ChildOf(parse, d)
      case Some(child) => assert Points(parse, d, child.unitId, child.unitType);
      case None =>
    }
  }

  ghost predicate Declared(parse: Parser, resources: seq<Resource>, unitId: string,
                           unitType: Option<string>)
  {
    exists i, j | 0 <= i < |resources| && resources[i].Embeds? && 0 <= j < |resources[i].descriptors| ::
      Points(parse, resources[i].descriptors[j], unitId, unitType)
  }

  ghost predicate AllSound(parse: Parser, resources: seq<Resource>) {
    forall i | 0 <= i < |resources| ::
      && !resources[i].Malformed?
      && (resources[i].Embeds? ==>
            forall j | 0 <= j < |resources[i].descriptors| :: !Broken(parse, resources[i].descriptors[j]))
  }

  lemma {:induction false} EntryIsOf(parse: Parser, descriptors: seq<Descriptor>, entry: Option<Child>)
    ensures entry in EntriesOf(parse, descriptors)
            <==> exists j | 0 <= j < |descriptors| :: entry in EntryOf(parse, descriptors[j])
    decreases |descriptors|
  {
    hide EntryOf;
    if descriptors != [] {
      EntryIsOf(parse, descriptors[..|descriptors| - 1], entry);
    }
  }

  lemma {:induction false} EntryIsFrom(parse: Parser, resources: seq<Resource>, entry: Option<Child>)
    ensures entry in Entries(parse, resources)
            <==> exists i | 0 <= i < |resources| :: entry in ResourceEntries(parse, resources[i])
    decreases |resources|
  {
    hide ResourceEntries;
    if resources != [] {
      EntryIsFrom(parse, resources[..|resources| - 1], entry);
    }
  }

  lemma DeclaredInFull(parse: Parser, resources: seq<Resource>, unitId: string, unitType: Option<string>)
    ensures Some(Child(unitId, unitType)) in Entries(parse, resources)
            <==> Declared(parse, resources, unitId, unitType)
  {
    hide EntriesOf, EntryOf, Points, Entries;
    EntryIsFrom(parse, resources, Some(Child(unitId, unitType)));
    forall i | 0 <= i < |resources| && resources[i].Embeds?
      ensures Some(Child(unitId, unitType)) in EntriesOf(parse, resources[i].descriptors)
              <==> exists j | 0 <= j < |resources[i].descriptors| ::
                     Points(parse, resources[i].descriptors[j], unitId, unitType)
    {
      EntryIsOf(parse, resources[i].descriptors, Some(Child(unitId, unitType)));
      forall j | 0 <= j < |resources[i].descriptors|
        ensures Some(Child(unitId, unitType)) in EntryOf(parse, resources[i].descriptors[j])
                <==> Points(parse, resources[i].descriptors[j], unitId, unitType)
      {
        EntryInFull(parse, resources[i].descriptors[j]);
      }
    }
  }

  lemma SoundInFull(parse: Parser, resources: seq<Resource>)
    ensures None !in Entries(parse, resources) <==> AllSound(parse, resources)
  {
    hide EntriesOf, EntryOf, Broken, Entries;
    EntryIsFrom(parse, resources, None);
    forall i | 0 <= i < |resources| && resources[i].Embeds?
      ensures None in EntriesOf(parse, resources[i].descriptors)
              <==> exists j | 0 <= j < |resources[i].descriptors| ::
                     Broken(parse, resources[i].descriptors[j])
    {
      EntryIsOf(parse, resources[i].descriptors, None);
      forall j | 0 <= j < |resources[i].descriptors|
        ensures None in EntryOf(parse, resources[i].descriptors[j])
                <==> Broken(parse, resources[i].descriptors[j])
      {
        EntryInFull(parse, resources[i].descriptors[j]);
      }
    }
  }

  /**
   * A Unit is listed exactly when a descriptor that is not deleted points to it, with the type that
   * one of these states; the listing fails exactly when a resource is malformed, a descriptor is
   * broken, or two descriptors state different types for one Unit.
   */
  lemma ReferencesInFull(parse: Parser, resources: seq<Resource>)
    ensures References(parse, resources).Some?
            <==> AllSound(parse, resources)
                 && forall unitId, a, b | Declared(parse, resources, unitId, Some(a))
                                          && Declared(parse, resources, unitId, Some(b)) :: a == b
    ensures References(parse, resources).Some? ==>
      var children := References(parse, resources).value;
      && Sorted(IdsOf(children))
      && (forall unitId :: unitId in IdsOf(children)
            <==> exists unitType :: Declared(parse, resources, unitId, unitType))
      && forall i, unitType | 0 <= i < |children| ::
           children[i].unitType == Some(unitType)
           <==> Declared(parse, resources, children[i].unitId, Some(unitType))
  {
    hide Merge, Entries, Listing, Sorted, Declared, AllSound;
    var entries := Entries(parse, resources);
    forall unitId, unitType
      ensures Some(Child(unitId, unitType)) in entries <==> Declared(parse, resources, unitId, unitType)
    {
      DeclaredInFull(parse, resources, unitId, unitType);
    }
    assert forall unitId, unitType ::
      DeclaresType(entries, unitId, unitType) <==> Declared(parse, resources, unitId, Some(unitType));
    assert forall unitId ::
      Declares(entries, unitId) <==> exists unitType :: Declared(parse, resources, unitId, unitType) by {
      DeclaresInFull(parse, resources, entries);
    }
    hide DeclaresType, Declares;
    SoundInFull(parse, resources);
    MergeExactly(entries);
    if Merge(entries).Some? {
      ListingExactly(entries);
    }
  }

  lemma DeclaresInFull(parse: Parser, resources: seq<Resource>, entries: seq<Option<Child>>)
    requires forall unitId, unitType ::
               Some(Child(unitId, unitType)) in entries <==> Declared(parse, resources, unitId, unitType)
    ensures forall unitId ::
              Declares(entries, unitId) <==> exists unitType :: Declared(parse, resources, unitId, unitType)
  {
    hide Declared;
    forall unitId
      ensures Declares(entries, unitId) <==> exists unitType :: Declared(parse, resources, unitId, unitType)
    {
      if Declares(entries, unitId) {
        var entry :| entry in entries && entry.Some? && entry.value.unitId == unitId;
        assert entry == Some(Child(unitId, entry.value.unitType));
      }
      if unitType :| Declared(parse, resources, unitId, unitType) {
        assert Some(Child(unitId, unitType)) in entries;
      }
    }
  }

  // ---------- The loops ----------

  lemma {:induction false} EntriesPrefix(parse: Parser, resources: seq<Resource>, i: nat)
    requires i <= |resources|
    ensures Entries(parse, resources[..i]) <= Entries(parse, resources)
    decreases |resources|
  {
    if i == |resources| {
      assert resources[..i] == resources;
    } else {
      var front := resources[..|resources| - 1];
      EntriesPrefix(parse, front, i);
      assert front[..i] == resources[..i];
    }
  }

  lemma {:induction false} EntriesOfPrefix(parse: Parser, descriptors: seq<Descriptor>, j: nat)
    requires j <= |descriptors|
    ensures EntriesOf(parse, descriptors[..j]) <= EntriesOf(parse, descriptors)
    decreases |descriptors|
  {
    if j == |descriptors| {
      assert descriptors[..j] == descriptors;
    } else {
      var front := descriptors[..|descriptors| - 1];
      EntriesOfPrefix(parse, front, j);
      assert front[..j] == descriptors[..j];
    }
  }

  lemma NextResource(parse: Parser, resources: seq<Resource>, i: nat)
    requires i < |resources|
    ensures Entries(parse, resources[..i + 1])
            == Entries(parse, resources[..i]) + ResourceEntries(parse, resources[i])
    ensures Entries(parse, resources[..i + 1]) <= Entries(parse, resources)
  {
    hide ResourceEntries;
    assert resources[..i + 1][..i] == resources[..i];
    EntriesPrefix(parse, resources, i + 1);
  }

  lemma NextDescriptor(parse: Parser, descriptors: seq<Descriptor>, j: nat)
    requires j < |descriptors|
    ensures EntriesOf(parse, descriptors[..j + 1])
            == EntriesOf(parse, descriptors[..j]) + EntryOf(parse, descriptors[j])
    ensures EntriesOf(parse, descriptors[..j + 1]) <= EntriesOf(parse, descriptors)
  {
    hide EntryOf;
    assert descriptors[..j + 1][..j] == descriptors[..j];
    EntriesOfPrefix(parse, descriptors, j + 1);
  }

  lemma MergeNext(done: seq<Option<Child>>, entry: Option<Child>, m: Merged)
    requires Merge(done) == Some(m)
    ensures Merge(done + [entry]) == if entry.Some? then Add(m, entry.value) else None
  {
    assert (done + [entry])[..|done|] == done;
  }

  /** An error is final. */
  lemma {:induction false} MergeStops(some: seq<Option<Child>>, all: seq<Option<Child>>)
    requires some <= all && Merge(some).None?
    ensures Merge(all).None?
    decreases |all|
  {
    if |some| < |all| {
      MergeStops(some, all[..|all| - 1]);
    } else {
      assert some == all;
    }
  }

  /** One descriptor: the map with its child, the map as it was, or an error. */
  method AddDescriptor(parse: Parser, m: Merged, descriptor: Descriptor,
                       ghost done: seq<Option<Child>>)
    returns (after: Option<Merged>)
    requires Merge(done) == Some(m)
    ensures after == Merge(done + EntryOf(parse, descriptor))
  {
    hide Merge, Add, ChildOf;
    assert done + [] == done;
    MergeNext(done, None, m);
    if descriptor.NoRecord? {
      return None;
    }
    if descriptor.softDeleted {
      return Some(m);
    }
    var child := ChildOf(parse, descriptor);
    MergeNext(done, child, m);
    if child.None? {
      return None;
    }
    return Add(m, child.value);
  }

  method AddDescriptors(parse: Parser, m: Merged, descriptors: seq<Descriptor>,
                        ghost done: seq<Option<Child>>)
    returns (after: Option<Merged>)
    requires Merge(done) == Some(m)
    ensures after == Merge(done + EntriesOf(parse, descriptors))
  {
    hide Merge, EntriesOf, EntryOf;
    after := Some(m);
    NoDescriptors(parse);
    assert descriptors[..0] == [] && done + [] == done;
    for j := 0 to |descriptors|
      invariant after.Some? && after == Merge(done + EntriesOf(parse, descriptors[..j]))
    {
      NextDescriptor(parse, descriptors, j);
      ghost var before := done + EntriesOf(parse, descriptors[..j]);
      after := AddDescriptor(parse, after.value, descriptors[j], before);
      assert before + EntryOf(parse, descriptors[j]) == done + EntriesOf(parse, descriptors[..j + 1]);
      if after.None? {
        MergeStops(done + EntriesOf(parse, descriptors[..j + 1]), done + EntriesOf(parse, descriptors));
        return None;
      }
    }
    assert descriptors[..|descriptors|] == descriptors;
  }

  lemma NoDescriptors(parse: Parser)
    ensures EntriesOf(parse, []) == [] && Entries(parse, []) == [] && Merge([]) == Some(Merged(map[], []))
  {
  }

  /** `embeddedUnitReferences` */
  method EmbeddedUnitReferences(parse: Parser, resources: seq<Resource>)
    returns (references: Option<seq<Child>>)
    ensures references == References(parse, resources)
  {
    hide Merge, Entries, EntriesOf, Listing;
    var m := Merged(map[], []);
    NoDescriptors(parse);
    assert resources[..0] == [];
    for i := 0 to |resources|
      invariant Merge(Entries(parse, resources[..i])) == Some(m)
    {
      NextResource(parse, resources, i);
      ghost var done := Entries(parse, resources[..i]);
      assert done + [] == done;
      MergeNext(done, None, m);
      if resources[i].Malformed? {
        MergeStops(done + [None], Entries(parse, resources));
        return None;
      }
      if resources[i].Embeds? {
        var after := AddDescriptors(parse, m, resources[i].descriptors, done);
        if after.None? {
          MergeStops(Entries(parse, resources[..i + 1]), Entries(parse, resources));
          return None;
        }
        m := after.value;
      }
    }
    assert resources[..|resources|] == resources;
    return Some(Listing(m));
  }

  // ---------- Formula references ----------

  /** A resource of another kind, one whose data is not as expected, or the ids it names. */
  datatype Formulas = ForeignFormulas | MalformedFormulas | Names(unitIds: seq<Option<string>>)

  /** A name that is no text, or a blank one, is an error. */
  predicate Usable(name: Option<string>) {
    name.Some? && Trim(name.value) != ""
  }

  predicate Clean(f: Formulas) {
    !f.MalformedFormulas? && (f.Names? ==> forall name | name in f.unitIds :: Usable(name))
  }

  predicate Mentions(f: Formulas, unitId: string) {
    f.Names? && exists name | name in f.unitIds :: Usable(name) && Trim(name.value) == unitId
  }

  method AddNames(names: seq<Option<string>>, order: seq<string>) returns (after: Option<seq<string>>)
    requires NoneTwice(order)
    ensures after.Some? <==> forall name | name in names :: Usable(name)
    ensures after.Some? ==>
              && NoneTwice(after.value)
              && forall id :: id in after.value <==>
                   id in order || exists name | name in names :: Usable(name) && Trim(name.value) == id
  {
    hide Trim;
    var ids := order;
    for j := 0 to |names|
      invariant forall name | name in names[..j] :: Usable(name)
      invariant NoneTwice(ids)
      invariant forall id :: id in ids <==>
        id in order || exists name | name in names[..j] :: Usable(name) && Trim(name.value) == id
    {
      var name := names[j];
      assert names[..j + 1] == names[..j] + [name] && name in names;
      if name.None? || Trim(name.value) == "" {
        return None;
      }
      if Trim(name.value) !in ids {
        ids := ids + [Trim(name.value)];
      }
    }
    assert names[..|names|] == names;
    return Some(ids);
  }

  /** `externalReferenceUnitIds`: the named Units, sorted, or nothing where it throws. */
  method ExternalReferenceUnitIds(resources: seq<Formulas>) returns (unitIds: Option<seq<string>>)
    ensures unitIds.Some? <==> forall f | f in resources :: Clean(f)
    ensures unitIds.Some? ==>
              && Sorted(unitIds.value)
              && forall id :: id in unitIds.value <==> exists f | f in resources :: Mentions(f, id)
  {
    hide Usable, NoneTwice, SortAll;
    var ids: seq<string> := [];
    assert NoneTwice(ids) by { NothingTwice(); }
    for i := 0 to |resources|
      invariant NoneTwice(ids)
      invariant forall f | f in resources[..i] :: Clean(f)
      invariant forall id :: id in ids <==> exists f | f in resources[..i] :: Mentions(f, id)
    {
      var f := resources[i];
      ghost var before := ids;
      assert resources[..i + 1] == resources[..i] + [f] && f in resources;
      assert forall id :: (exists g | g in resources[..i + 1] :: Mentions(g, id))
                          <==> (exists g | g in resources[..i] :: Mentions(g, id)) || Mentions(f, id) by {
        MentionsMore(resources[..i], f);
      }
      if f.MalformedFormulas? {
        assert !Clean(f);
        return None;
      }
      if f.Names? {
        var after := AddNames(f.unitIds, ids);
        if after.None? {
          assert !Clean(f);
          return None;
        }
        ids := after.value;
        assert Clean(f);
      }
      assert forall id :: id in ids <==> id in before || Mentions(f, id);
    }
    assert resources[..|resources|] == resources;
    SortAllSorts(ids);
    return Some(SortAll(ids));
  }

  lemma MentionsMore(resources: seq<Formulas>, f: Formulas)
    ensures forall id :: (exists g | g in resources + [f] :: Mentions(g, id))
                         <==> (exists g | g in resources :: Mentions(g, id)) || Mentions(f, id)
  {
    hide Mentions;
    assert f in resources + [f];
    assert forall g | g in resources :: g in resources + [f];
    assert forall g | g in resources + [f] :: g in resources || g == f;
  }

  lemma NothingTwice()
    ensures NoneTwice([])
  {
  }

  // ---------- What is loaded beside the host ----------

  datatype Target = Target(unitId: string, unitType: string)

  /** The target that a Unit id resolves to, and whether its data can be exported. */
  type Resolver = string -> Option<Target>
  type Exporter = Target -> bool

  const SHEET := "sheet"
  const BASE := "base"

  /** The ids that are neither the host's nor loaded already. */
  function Selected(unitIds: seq<string>, taken: set<string>): seq<string> {
    if unitIds == [] then []
    else
      Selected(unitIds[..|unitIds| - 1], taken)
      + (if unitIds[|unitIds| - 1] in taken then [] else [unitIds[|unitIds| - 1]])
  }

  lemma {:induction false} SelectedExactly(unitIds: seq<string>, taken: set<string>)
    ensures forall id :: id in Selected(unitIds, taken) <==> id in unitIds && id !in taken
    ensures Sorted(unitIds) ==> Sorted(Selected(unitIds, taken))
  {
    if unitIds != [] {
      var front, last := unitIds[..|unitIds| - 1], unitIds[|unitIds| - 1];
      SelectedExactly(front, taken);
      assert unitIds == front + [last];
      if Sorted(unitIds) {
        forall id | id in front ensures Below(id, last) {
          var i :| 0 <= i < |front| && front[i] == id;
          assert unitIds[i] == id;
        }
      }
    }
  }

  function TargetIds(targets: seq<Target>): (ids: seq<string>)
    ensures |ids| == |targets|
    ensures forall i | 0 <= i < |targets| :: ids[i] == targets[i].unitId
  {
    seq(|targets|, i requires 0 <= i < |targets| => targets[i].unitId)
  }

  predicate FormulaLoads(resolve: Resolver, exports: Exporter, unitId: string) {
    match resolve(unitId)
    case None => false
    case Some(target) =>
      target.unitId == unitId && (target.unitType == SHEET || target.unitType == BASE) && exports(target)
  }

  predicate EmbedLoads(resolve: Resolver, exports: Exporter, child: Child) {
    match resolve(child.unitId)
    case None => false
    case Some(target) =>
      && target.unitId == child.unitId
      && (child.unitType.Some? ==> child.unitType == Some(target.unitType))
      && exports(target)
  }

  /** The two selections of `loadUnit`, and nothing where one of its Units does not load. */
  datatype Loaded = Loaded(formulas: seq<Target>, embedded: seq<Target>)

  method LoadFormulas(host: string, formulaIds: seq<string>, resolve: Resolver, exports: Exporter)
    returns (formulas: Option<seq<Target>>)
    ensures formulas.Some? <==> forall id | id in formulaIds && id != host :: FormulaLoads(resolve, exports, id)
    ensures formulas.Some? ==> TargetIds(formulas.value) == Selected(formulaIds, {host})
    ensures formulas.Some? ==> forall target | target in formulas.value ::
              && resolve(target.unitId) == Some(target) && exports(target)
              && (target.unitType == "sheet" || target.unitType == "base")
  {
    hide FormulaLoads;
    var loaded: seq<Target> := [];
    for i := 0 to |formulaIds|
      invariant TargetIds(loaded) == Selected(formulaIds[..i], {host})
      invariant forall target | target in loaded ::
        && resolve(target.unitId) == Some(target) && exports(target)
        && (target.unitType == "sheet" || target.unitType == "base")
      invariant forall id | id in formulaIds[..i] && id != host :: FormulaLoads(resolve, exports, id)
    {
      var id := formulaIds[i];
      assert formulaIds[..i + 1][..i] == formulaIds[..i] && id in formulaIds;
      assert formulaIds[..i + 1] == formulaIds[..i] + [id];
      if id != host {
        var target := resolve(id);
        WhenFormulaLoads(resolve, exports, id);
        if target.None? || target.value.unitId != id
           || !(target.value.unitType == SHEET || target.value.unitType == BASE)
           || !exports(target.value)
        {
          return None;
        }
        ghost var before := TargetIds(loaded);
        loaded := loaded + [target.value];
        assert TargetIds(loaded) == before + [id];
      }
    }
    assert formulaIds[..|formulaIds|] == formulaIds;
    return Some(loaded);
  }

  lemma WhenFormulaLoads(resolve: Resolver, exports: Exporter, id: string)
    ensures FormulaLoads(resolve, exports, id)
            <==> resolve(id).Some? && resolve(id).value.unitId == id
                 && (resolve(id).value.unitType == "sheet" || resolve(id).value.unitType == "base")
                 && exports(resolve(id).value)
  {
  }

  method LoadEmbedded(host: string, formulaIds: seq<string>, references: seq<Child>,
                      resolve: Resolver, exports: Exporter)
    returns (embedded: Option<seq<Target>>)
    ensures embedded.Some? <==>
              forall child | child in references && child.unitId != host && child.unitId !in formulaIds ::
                EmbedLoads(resolve, exports, child)
    ensures embedded.Some? ==>
              TargetIds(embedded.value)
              == Selected(IdsOf(references), {host} + set id | id in formulaIds)
    ensures embedded.Some? ==> forall target | target in embedded.value ::
              && resolve(target.unitId) == Some(target) && exports(target)
              && forall child | child in references && child.unitId == target.unitId && child.unitId != host
                                && child.unitId !in formulaIds ::
                   child.unitType == None || child.unitType == Some(target.unitType)
  {
    hide EmbedLoads, Selected;
    NothingSelected({host} + set id | id in formulaIds);
    ghost var taken := {host} + set id | id in formulaIds;
    ghost var unitIds := IdsOf(references);
    var loaded: seq<Target> := [];
    for i := 0 to |references|
      invariant TargetIds(loaded) == Selected(unitIds[..i], taken)
      invariant forall target | target in loaded :: resolve(target.unitId) == Some(target) && exports(target)
      invariant forall child | child in references[..i] && child.unitId != host && child.unitId !in formulaIds ::
        EmbedLoads(resolve, exports, child)
    {
      var child := references[i];
      SelectedNext(unitIds, taken, i);
      assert unitIds[i] == child.unitId && child in references;
      assert references[..i + 1] == references[..i] + [child];
      if child.unitId != host && child.unitId !in formulaIds {
        var target := resolve(child.unitId);
        WhenEmbedLoads(resolve, exports, child);
        if target.None? || target.value.unitId != child.unitId
           || (child.unitType.Some? && child.unitType != Some(target.value.unitType))
           || !exports(target.value)
        {
          return None;
        }
        ghost var before := TargetIds(loaded);
        loaded := loaded + [target.value];
        assert TargetIds(loaded) == before + [child.unitId];
      }
    }
    assert references[..|references|] == references && unitIds[..|references|] == unitIds;
    forall child | child in references && child.unitId != host && child.unitId !in formulaIds
      ensures resolve(child.unitId).Some?
              && (child.unitType == None || child.unitType == Some(resolve(child.unitId).value.unitType))
    {
      WhenEmbedLoads(resolve, exports, child);
    }
    return Some(loaded);
  }

  lemma NothingSelected(taken: set<string>)
    ensures Selected([], taken) == []
  {}

  lemma SelectedNext(unitIds: seq<string>, taken: set<string>, i: nat)
    requires i < |unitIds|
    ensures Selected(unitIds[..i + 1], taken)
            == Selected(unitIds[..i], taken) + if unitIds[i] in taken then [] else [unitIds[i]]
  {
    assert unitIds[..i + 1][..i] == unitIds[..i];
  }

  lemma WhenEmbedLoads(resolve: Resolver, exports: Exporter, child: Child)
    ensures EmbedLoads(resolve, exports, child)
            <==> resolve(child.unitId).Some? && resolve(child.unitId).value.unitId == child.unitId
                 && (child.unitType.Some? ==> child.unitType == Some(resolve(child.unitId).value.unitType))
                 && exports(resolve(child.unitId).value)
  {
  }

  /** `loadUnit`: no Unit is in both selections, and the host is in neither. */
  method LoadUnit(host: string, formulaIds: seq<string>, references: seq<Child>,
                  resolve: Resolver, exports: Exporter)
    returns (loaded: Option<Loaded>)
    requires Sorted(formulaIds) && Sorted(IdsOf(references))
    ensures loaded.Some? <==>
              && (forall id | id in formulaIds && id != host :: FormulaLoads(resolve, exports, id))
              && (forall child | child in references && child.unitId != host && child.unitId !in formulaIds ::
                    EmbedLoads(resolve, exports, child))
    ensures loaded.Some? ==>
              var formulas, embedded := TargetIds(loaded.value.formulas), TargetIds(loaded.value.embedded);
              && Sorted(formulas) && Sorted(embedded)
              && (forall id :: id in formulas <==> id in formulaIds && id != host)
              && (forall id :: id in embedded <==>
                    id in IdsOf(references) && id != host && id !in formulaIds)
    ensures loaded.Some? ==>
              && (forall target | target in loaded.value.formulas ::
                    && resolve(target.unitId) == Some(target) && exports(target)
                    && (target.unitType == "sheet" || target.unitType == "base"))
              && (forall target | target in loaded.value.embedded ::
                    && resolve(target.unitId) == Some(target) && exports(target)
                    && forall child | child in references && child.unitId == target.unitId
                                      && child.unitId != host && child.unitId !in formulaIds ::
                         child.unitType == None || child.unitType == Some(target.unitType))
  {
    hide FormulaLoads, EmbedLoads, Sorted, Selected;
    var formulas := LoadFormulas(host, formulaIds, resolve, exports);
    if formulas.None? {
      return None;
    }
    var embedded := LoadEmbedded(host, formulaIds, references, resolve, exports);
    if embedded.None? {
      return None;
    }
    SelectedExactly(formulaIds, {host});
    SelectedExactly(IdsOf(references), {host} + set id | id in formulaIds);
    return Some(Loaded(formulas.value, embedded.value));
  }
}
