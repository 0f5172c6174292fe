/**
 * Which sources a rewrite can reach at all. The rewrite also enters a `resources` member that is
 * no array, where a visit never looks: what it reaches decides what changes.
 */
module ImageReach {
  import opened Wrappers
  import opened Json
  import opened ImageReferences
  import opened ImageRewriting

  // ---------- Reach ----------

  function AsSet(source: Option<Text>): set<Text> {
    if source.Some? then {source.value} else {}
  }

  /** The sources that the pairs of one record declare with this type. */
  function Declared(fields: seq<Field>, from: SourceType): set<Text> {
    AsSet(Active(fields, from, IMAGE_PAIR)) + AsSet(Active(fields, from, FILL_PAIR))
    + AsSet(Active(fields, from, SOURCE_PAIR))
  }

  /** All sources of this type in the records that the rewrite walks through. */
  function Reached(v: Json, from: SourceType): set<Text>
    decreases v, 0
  {
    match v
    case Arr(items) => set i, s | 0 <= i < |items| && s in Reached(items[i], from) :: s
    case Obj(fields) =>
      Declared(fields, from)
      + set i, s | 0 <= i < |fields| && s in ReachedMember(fields[i].key, fields[i].value, from) :: s
    case _ => {}
  }

  function ReachedMember(key: string, v: Json, from: SourceType): set<Text>
    decreases v, 2
  {
    if key == "resources" && v.Arr? then
      set i, s | 0 <= i < |v.items| && s in ReachedResource(v.items[i], from) :: s
    else Reached(v, from)
  }

  function ReachedResource(v: Json, from: SourceType): set<Text>
    decreases v, 1
  {
    Reached(v, from)
    + match EncodedData(v)
      case Some(inner) => Reached(inner, from)
      case None => {}
  }

  /** The plan maps something that the rewrite reaches. */
  predicate Touches(sources: set<Text>, plan: Plan) {
    exists s | s in sources :: s in plan.replacements
  }

  lemma DeclaredIsMapped(fields: seq<Field>, plan: Plan)
    ensures AnyMapped(fields, plan) <==> Touches(Declared(fields, plan.from), plan)
  {
    hide Active;
    var sources := Declared(fields, plan.from);
    forall pair | IsPair(pair) && Mapped(fields, plan, pair) ensures Touches(sources, plan) {
      assert Active(fields, plan.from, pair).value in sources;
    }
  }

  // ---------- The changed flag ----------

  /** The flag is set exactly when the plan maps a source in reach, for every tree. */
  lemma {:induction false} ChangedByReach(v: Json, plan: Plan)
    ensures Changed(v, plan) <==> Touches(Reached(v, plan.from), plan)
    decreases v, 0
  {
    match v
    case Arr(items) =>
      forall i | 0 <= i < |items|
        ensures Changed(items[i], plan) <==> Touches(Reached(items[i], plan.from), plan)
      {
        ChangedByReach(items[i], plan);
      }
      OfItems(items, plan);
      hide Changed;
    case Obj(fields) =>
      forall i | 0 <= i < |fields|
        ensures ChangedMember(fields[i].key, fields[i].value, plan)
                <==> Touches(ReachedMember(fields[i].key, fields[i].value, plan.from), plan)
      {
        MemberChangedByReach(fields[i].key, fields[i].value, plan);
      }
      DeclaredIsMapped(fields, plan);
      OfFields(fields, plan);
      hide Changed, ChangedMember, AnyMapped, Declared, ReachedMember;
    case _ =>
  }

  lemma {:induction false} MemberChangedByReach(key: string, v: Json, plan: Plan)
    ensures ChangedMember(key, v, plan) <==> Touches(ReachedMember(key, v, plan.from), plan)
    decreases v, 2
  {
    if key == "resources" && v.Arr? {
      forall i | 0 <= i < |v.items|
        ensures ChangedResource(v.items[i], plan)
                <==> Touches(ReachedResource(v.items[i], plan.from), plan)
      {
        ChangedByReach(v.items[i], plan);
        if EncodedData(v.items[i]).Some? {
          ChangedByReach(EncodedData(v.items[i]).value, plan);
        }
      }
      OfResources(v.items, plan);
      hide Changed, ChangedResource, Reached, ReachedResource;
    } else {
      ChangedByReach(v, plan);
    }
  }

  // ---------- Reach and visit ----------

  lemma {:induction false} InItems(items: seq<Json>, from: SourceType, s: Text)
    ensures s in VisitItems(items, from)
            <==> exists i | 0 <= i < |items| :: s in Visit(items[i], from)
  {
    if items != [] {
      InItems(items[1..], from, s);
      if i :| 0 <= i < |items| && s in Visit(items[i], from) {
        assert i > 0 ==> items[i] == items[1..][i - 1];
      }
    }
  }

  lemma {:induction false} InResources(items: seq<Json>, from: SourceType, s: Text)
    ensures s in VisitResources(items, from)
            <==> exists i | 0 <= i < |items| :: s in VisitResource(items[i], from)
  {
    if items != [] {
      InResources(items[1..], from, s);
      if i :| 0 <= i < |items| && s in VisitResource(items[i], from) {
        assert i > 0 ==> items[i] == items[1..][i - 1];
      }
    }
  }

  /** The members other than `resources`. */
  lemma {:induction false} InFields(fields: seq<Field>, from: SourceType, s: Text)
    ensures s in VisitFields(fields, from)
            <==> exists i | 0 <= i < |fields| && fields[i].key != "resources" ::
                   s in Visit(fields[i].value, from)
  {
    if fields != [] {
      InFields(fields[1..], from, s);
      if i :| 0 <= i < |fields| && fields[i].key != "resources" && s in Visit(fields[i].value, from) {
        assert i > 0 ==> fields[i] == fields[1..][i - 1];
      }
    }
  }

  lemma InResourcesMember(fields: seq<Field>, from: SourceType, s: Text)
    requires DistinctKeys(fields)
    ensures s in VisitResourcesMember(fields, from)
            <==> exists i | 0 <= i < |fields| && fields[i].key == "resources" ::
                   s in VisitMember(fields[i].key, fields[i].value, from)
  {
    forall i | 0 <= i < |fields| && fields[i].key == "resources"
      ensures Get(fields, "resources") == Some(fields[i].value)
    {
      GetAt(fields, i);
    }
    var k := IndexOf(fields, "resources");
    hide Visit, VisitSerializedResources;
    if k < |fields| {
      assert fields[k].key == "resources";
    }
  }

  lemma InPairs(fields: seq<Field>, from: SourceType, s: Text)
    ensures s in Sources(ImageFieldPairs(fields, from)) <==> s in Declared(fields, from)
  {
    hide Active;
    SplitSources(fields, from);
    InPair(fields, from, IMAGE_PAIR, s);
    InPair(fields, from, FILL_PAIR, s);
    InPair(fields, from, SOURCE_PAIR, s);
    hide PairReference, ImageFieldPairs;
  }

  lemma InPair(fields: seq<Field>, from: SourceType, pair: Pair, s: Text)
    ensures s in Sources(PairReference(fields, from, pair))
            <==> s in AsSet(Active(fields, from, pair))
  {
    hide Active;
    if Active(fields, from, pair).Some? {
      assert Sources(PairReference(fields, from, pair))[0] == Active(fields, from, pair).value;
    }
  }

  lemma InRecord(fields: seq<Field>, from: SourceType, s: Text)
    requires DistinctKeys(fields)
    ensures s in Visit(Obj(fields), from)
            <==> s in Declared(fields, from)
                 || exists i | 0 <= i < |fields| ::
                      s in VisitMember(fields[i].key, fields[i].value, from)
  {
    hide Visit, ImageFieldPairs, VisitFields, VisitResourcesMember, Declared;
    VisitRecord(fields, from);
    InPairs(fields, from, s);
    InResourcesMember(fields, from, s);
    InFields(fields, from, s);
  }

  /** Every `resources` member in reach of the rewrite is an array. */
  predicate ArraysOnly(v: Json)
    decreases v, 0
  {
    match v
    case Arr(items) => forall i | 0 <= i < |items| :: ArraysOnly(items[i])
    case Obj(fields) =>
      forall i | 0 <= i < |fields| :: ArraysOnlyMember(fields[i].key, fields[i].value)
    case _ => true
  }

  predicate ArraysOnlyMember(key: string, v: Json)
    decreases v, 2
  {
    if key == "resources" then
      v.Arr? && forall i | 0 <= i < |v.items| ::
        && ArraysOnly(v.items[i])
        && (EncodedData(v.items[i]).Some? ==> ArraysOnly(EncodedData(v.items[i]).value))
    else ArraysOnly(v)
  }

  /** What is visited is in reach; with array resources everything in reach is visited. */
  lemma {:induction false} VisitedIsReached(v: Json, from: SourceType, s: Text)
    requires Valid(v)
    ensures s in Visit(v, from) ==> s in Reached(v, from)
    ensures ArraysOnly(v) && s in Reached(v, from) ==> s in Visit(v, from)
    decreases v, 0
  {
    hide Visit, VisitMember, Reached, ReachedMember;
    match v
    case Arr(items) =>
      forall i | 0 <= i < |items|
        ensures s in Visit(items[i], from) ==> s in Reached(items[i], from)
        ensures ArraysOnly(items[i]) && s in Reached(items[i], from) ==> s in Visit(items[i], from)
      {
        VisitedIsReached(items[i], from, s);
      }
      VisitOfItems(items, from);
      InItems(items, from, s);
      ReachedOfItems(items, from, s);
    case Obj(fields) =>
      forall i | 0 <= i < |fields|
        ensures s in VisitMember(fields[i].key, fields[i].value, from)
                ==> s in ReachedMember(fields[i].key, fields[i].value, from)
        ensures ArraysOnlyMember(fields[i].key, fields[i].value)
                && s in ReachedMember(fields[i].key, fields[i].value, from)
                ==> s in VisitMember(fields[i].key, fields[i].value, from)
      {
        MemberVisitedIsReached(fields[i].key, fields[i].value, from, s);
      }
      hide ArraysOnlyMember, Declared;
      InRecord(fields, from, s);
      ReachedOfFields(fields, from, s);
    case _ => InAtom(v, from);
  }

  lemma VisitOfItems(items: seq<Json>, from: SourceType)
    ensures Visit(Arr(items), from) == VisitItems(items, from)
  {}

  lemma InAtom(v: Json, from: SourceType)
    requires !v.Arr? && !v.Obj?
    ensures Visit(v, from) == [] && Reached(v, from) == {}
  {}

  lemma {:induction false} MemberVisitedIsReached(key: string, v: Json, from: SourceType, s: Text)
    requires Valid(v)
    ensures s in VisitMember(key, v, from) ==> s in ReachedMember(key, v, from)
    ensures ArraysOnlyMember(key, v) && s in ReachedMember(key, v, from)
            ==> s in VisitMember(key, v, from)
    decreases v, 2
  {
    if key != "resources" || !v.Arr? {
      VisitedIsReached(v, from, s);
    } else {
      forall i | 0 <= i < |v.items|
        ensures s in VisitResource(v.items[i], from) ==> s in ReachedResource(v.items[i], from)
        ensures ArraysOnlyMember(key, v) && s in ReachedResource(v.items[i], from)
                ==> s in VisitResource(v.items[i], from)
      {
        VisitedIsReached(v.items[i], from, s);
        if EncodedData(v.items[i]).Some? {
          VisitedIsReached(EncodedData(v.items[i]).value, from, s);
        }
      }
      InResources(v.items, from, s);
    }
  }

  // ---------- The flag and the visit ----------

  predicate SomeIn(sources: seq<Text>, plan: Plan) {
    exists s | s in sources :: s in plan.replacements
  }

  /** The plan maps a source in reach that no visit reports. */
  predicate Hides(v: Json, plan: Plan) {
    exists s | s in Reached(v, plan.from) :: s in plan.replacements && s !in Visit(v, plan.from)
  }

  /**
   * The flag says that some visited source is mapped, and nothing else, exactly when no mapped
   * source is hidden from the visit or some mapped source is visited as well.
   */
  lemma FlagAgreesExactly(v: Json, plan: Plan)
    requires Valid(v)
    ensures (Changed(v, plan) <==> SomeIn(Visit(v, plan.from), plan))
            <==> !Hides(v, plan) || SomeIn(Visit(v, plan.from), plan)
    ensures SomeIn(Visit(v, plan.from), plan) ==> Changed(v, plan)
  {
    ChangedByReach(v, plan);
    forall s ensures s in Visit(v, plan.from) ==> s in Reached(v, plan.from) {
      VisitedIsReached(v, plan.from, s);
    }
    hide Visit, Reached, Changed;
  }

  /**
   * A value whose flag is not set is the same value; with array resources the flag is set exactly
   * when some visited source is mapped.
   */
  lemma ChangedExactly(v: Json, plan: Plan)
    requires Valid(v)
    ensures !Changed(v, plan) ==> Rewrite(v, plan) == v
    ensures SomeIn(Visit(v, plan.from), plan) ==> Changed(v, plan)
    ensures ArraysOnly(v) ==> !Hides(v, plan)
    ensures ArraysOnly(v) && Changed(v, plan) ==> SomeIn(Visit(v, plan.from), plan)
  {
    if !Changed(v, plan) {
      Unchanged(v, plan);
    }
    FlagAgreesExactly(v, plan);
    forall s ensures ArraysOnly(v) && s in Reached(v, plan.from) ==> s in Visit(v, plan.from) {
      VisitedIsReached(v, plan.from, s);
    }
    hide Visit, Reached, Changed, ArraysOnly, Rewrite;
  }

  /** An image in a `resources` member that is no array. */
  function HiddenImage(source: Text): Json {
    Obj([Field("resources", Obj([Field("source", Str(source)),
                                 Field("imageSourceType", Str(Tag(Base64)))]))])
  }

  /** It is rewritten like any other, although no visit ever reports it. */
  lemma ImageIsHidden(source: Text, plan: Plan)
    requires NonEmpty(source) && plan.from == Base64 && source in plan.replacements
    ensures
      var v := HiddenImage(source);
      Changed(v, plan) && Visit(v, Base64) == [] && Hides(v, plan)
  {
    var fields := [Field("source", Str(source)), Field("imageSourceType", Str(Tag(Base64)))];
    GetAt(fields, 0);
    GetAt(fields, 1);
    assert Mapped(fields, plan, IMAGE_PAIR);
    var outer := [Field("resources", Obj(fields))];
    GetAt(outer, 0);
    assert Active(fields, Base64, IMAGE_PAIR) == Some(source);
    assert source in ReachedMember("resources", outer[0].value, Base64);
    OfFields(outer, plan);
    SplitSources(outer, Base64);
    VisitRecord(outer, Base64);
    ChangedByReach(Obj(outer), plan);
    hide Visit, Changed;
  }

  lemma HiddenImageIsValid(source: Text)
    requires source.Plain?
    ensures Valid(HiddenImage(source))
  {
    var fields := [Field("source", Str(source)), Field("imageSourceType", Str(Tag(Base64)))];
    assert Valid(fields[0].value) && Valid(fields[1].value) && DistinctKeys(fields);
    assert Valid(Obj(fields));
  }

  lemma HiddenImageHasNoIds(source: Text)
    ensures Reached(HiddenImage(source), Uuid) == {}
  {
    var fields := [Field("source", Str(source)), Field("imageSourceType", Str(Tag(Base64)))];
    GetAt(fields, 1);
    assert Declared(fields, Uuid) == {};
    assert Reached(fields[0].value, Uuid) == {} && Reached(fields[1].value, Uuid) == {};
    assert Reached(Obj(fields), Uuid) == {};
    var outer := [Field("resources", Obj(fields))];
    assert Declared(outer, Uuid) == {};
    assert ReachedMember(outer[0].key, outer[0].value, Uuid) == {};
    hide Declared, ReachedMember;
  }

  /** A `resources` record is rewritten although no visit ever reports its references. */
  lemma HiddenReference()
    ensures
      var image := Obj([Field("source", Str(Plain("data:a"))),
                        Field("imageSourceType", Str(Tag(Base64)))]);
      var v := Obj([Field("resources", image)]);
      var plan := Plan(Base64, Uuid, map[Plain("data:a") := Plain("file-1")]);
      Changed(v, plan) && Visit(v, Base64) == [] && Hides(v, plan)
  {
    ImageIsHidden(Plain("data:a"), Plan(Base64, Uuid, map[Plain("data:a") := Plain("file-1")]));
    hide Changed, Visit, Hides;
  }

  // ---------- The rewrite depends on what it reaches ----------

  /** Two plans that replace the sources in reach alike. */
  predicate Agree(sources: set<Text>, a: Plan, b: Plan) {
    && a.from == b.from && a.to == b.to
    && forall s | s in sources ::
         && (s in a.replacements <==> s in b.replacements)
         && (s in a.replacements && s in b.replacements ==> a.replacements[s] == b.replacements[s])
  }

  lemma PairsAgree(fields: seq<Field>, a: Plan, b: Plan)
    requires Agree(Declared(fields, a.from), a, b)
    ensures forall pair | IsPair(pair) :: Mapped(fields, a, pair) == Mapped(fields, b, pair)
    ensures forall key :: Written(fields, a, key) == Written(fields, b, key)
  {
    hide Active;
    forall pair | IsPair(pair) ensures Mapped(fields, a, pair) == Mapped(fields, b, pair) {
      if Active(fields, a.from, pair).Some? {
        assert Active(fields, a.from, pair).value in Declared(fields, a.from);
      }
    }
    assert IsPair(IMAGE_PAIR) && IsPair(FILL_PAIR) && IsPair(SOURCE_PAIR);
  }

  /** Sources out of reach have no influence on the rewrite. */
  lemma {:induction false} RewriteByReach(v: Json, a: Plan, b: Plan)
    requires Agree(Reached(v, a.from), a, b)
    ensures Rewrite(v, a) == Rewrite(v, b)
    ensures Changed(v, a) == Changed(v, b)
    decreases v, 0
  {
    ChangedByReach(v, a);
    ChangedByReach(v, b);
    match v
    case Arr(items) =>
      forall i | 0 <= i < |items| ensures Rewrite(items[i], a) == Rewrite(items[i], b) {
        RewriteByReach(items[i], a, b);
      }
      OfItems(items, a);
      OfItems(items, b);
      assert Rewrite(v, a).items == Rewrite(v, b).items;
    case Obj(fields) =>
      forall i | 0 <= i < |fields|
        ensures RewriteMember(fields[i].key, fields[i].value, a)
                == RewriteMember(fields[i].key, fields[i].value, b)
      {
        assert ReachedMember(fields[i].key, fields[i].value, a.from) <= Reached(v, a.from);
        MemberByReach(fields[i].key, fields[i].value, a, b);
      }
      PairsAgree(fields, a, b);
      OfFields(fields, a);
      OfFields(fields, b);
      hide Written, RewriteMember, Reached, ReachedMember, Rewrite;
      assert Rewrite(v, a).fields == Rewrite(v, b).fields;
    case _ =>
  }

  lemma {:induction false} MemberByReach(key: string, v: Json, a: Plan, b: Plan)
    requires Agree(ReachedMember(key, v, a.from), a, b)
    ensures RewriteMember(key, v, a) == RewriteMember(key, v, b)
    decreases v, 2
  {
    if key == "resources" && v.Arr? {
      forall i | 0 <= i < |v.items| ensures RewriteResource(v.items[i], a) == RewriteResource(v.items[i], b) {
        assert ReachedResource(v.items[i], a.from) <= ReachedMember(key, v, a.from);
        RewriteByReach(v.items[i], a, b);
        if EncodedData(v.items[i]).Some? {
          RewriteByReach(EncodedData(v.items[i]).value, a, b);
        }
      }
      assert RewriteMember(key, v, a).items == RewriteMember(key, v, b).items;
    } else {
      RewriteByReach(v, a, b);
    }
  }

  // ---------- Reach after the rewrite ----------

  /** What becomes of a source in reach: its replacement, under the new type, or itself. */
  predicate Becomes(plan: Plan, seen: SourceType, s: Text, t: Text) {
    && plan.from != plan.to
    && if seen == plan.to then s in plan.replacements && t == plan.replacements[s] && NonEmpty(t)
       else s !in plan.replacements && t == s
  }

  lemma PairStays(fields: seq<Field>, plan: Plan, seen: SourceType, pair: Pair, s: Text, t: Text)
    requires IsPair(pair) && Becomes(plan, seen, s, t) && Active(fields, plan.from, pair) == Some(s)
    ensures Active(Rewrite(Obj(fields), plan).fields, seen, pair) == Some(t)
  {
    var after := Rewrite(Obj(fields), plan).fields;
    RewrittenPair(fields, plan, pair);
    WrittenOfPair(fields, plan, pair);
    WrittenOfPair(after, plan.(from := seen), pair);
    hide Rewrite, RewriteMember, Written;
    assert Mapped(fields, plan, pair) ==> SourceMapped(fields, plan, pair);
  }

  lemma DeclaredStays(fields: seq<Field>, plan: Plan, seen: SourceType, s: Text, t: Text)
    requires Becomes(plan, seen, s, t) && s in Declared(fields, plan.from)
    ensures t in Declared(Rewrite(Obj(fields), plan).fields, seen)
  {
    hide Rewrite, Active, Becomes;
    var pair :| IsPair(pair) && Active(fields, plan.from, pair) == Some(s);
    PairStays(fields, plan, seen, pair, s, t);
  }

  /** The reach of a record is that of its pairs and of its members. */
  lemma SameReachOfFields(a: seq<Field>, b: seq<Field>, from: SourceType)
    requires |a| == |b| && Declared(a, from) == Declared(b, from)
    requires forall i | 0 <= i < |a| ::
      ReachedMember(a[i].key, a[i].value, from) == ReachedMember(b[i].key, b[i].value, from)
    ensures Reached(Obj(a), from) == Reached(Obj(b), from)
  {
    hide Declared, ReachedMember;
  }

  /** Other text in the `data` field changes nothing else in the reach of a record. */
  lemma ReachedWithData(v: Json, text: Text, from: SourceType)
    requires v.Obj? && DistinctKeys(v.fields)
    requires Has(v.fields, "data") && Get(v.fields, "data").value.Str?
    ensures
      var updated := Obj(Put(v.fields, "data", Str(text)));
      Reached(updated, from) == Reached(v, from) && EncodedData(updated) == ParseJson(text)
  {
    var updated := Put(v.fields, "data", Str(text));
    var d := IndexOf(v.fields, "data");
    GetAfterPut(v.fields, text);
    SameWriting(v.fields, updated, Plan(from, from, map[]));
    hide Active, Mapped;
    assert IsPair(IMAGE_PAIR) && IsPair(FILL_PAIR) && IsPair(SOURCE_PAIR);
    assert Declared(updated, from) == Declared(v.fields, from);
    forall i | 0 <= i < |updated|
      ensures ReachedMember(updated[i].key, updated[i].value, from)
              == ReachedMember(v.fields[i].key, v.fields[i].value, from)
    {
      if i == d {
        assert ReachedMember("data", Str(text), from) == {};
      }
    }
    hide ReachedMember, Declared, Reached;
    SameReachOfFields(updated, v.fields, from);
  }

  lemma ReachedOfItems(items: seq<Json>, from: SourceType, s: Text)
    ensures s in Reached(Arr(items), from)
            <==> exists i | 0 <= i < |items| :: s in Reached(items[i], from)
  {
  }

  lemma ReachedOfFields(fields: seq<Field>, from: SourceType, s: Text)
    ensures s in Reached(Obj(fields), from)
            <==> s in Declared(fields, from)
                 || exists i | 0 <= i < |fields| ::
                      s in ReachedMember(fields[i].key, fields[i].value, from)
  {
    hide Declared, ReachedMember;
  }

  lemma {:induction false} StillReached(v: Json, plan: Plan, seen: SourceType, s: Text, t: Text)
    requires Valid(v) && Becomes(plan, seen, s, t) && s in Reached(v, plan.from)
    ensures t in Reached(Rewrite(v, plan), seen)
    decreases v, 0
  {
    hide Declared, ReachedMember, Reached, Rewrite, Becomes;
    match v
    case Arr(items) =>
      OfItems(items, plan);
      ReachedOfItems(items, plan.from, s);
      ReachedOfItems(Rewrite(v, plan).items, seen, t);
      var i :| 0 <= i < |items| && s in Reached(items[i], plan.from);
      StillReached(items[i], plan, seen, s, t);
    case Obj(fields) =>
      ReachedOfFields(fields, plan.from, s);
      ReachedOfFields(Rewrite(v, plan).fields, seen, t);
      if s in Declared(fields, plan.from) {
        DeclaredStays(fields, plan, seen, s, t);
      } else {
        var i :| 0 <= i < |fields| && s in ReachedMember(fields[i].key, fields[i].value, plan.from);
        StillReachedMember(fields[i].key, fields[i].value, plan, seen, s, t);
        FieldStillReached(fields, plan, seen, i, s, t);
      }
    case _ => NothingInScalar(v, plan.from);
  }

  lemma NothingInScalar(v: Json, from: SourceType)
    ensures v.Arr? || v.Obj? || Reached(v, from) == {}
  {
  }

  lemma FieldStillReached(fields: seq<Field>, plan: Plan, seen: SourceType, i: nat, s: Text, t: Text)
    requires DistinctKeys(fields) && i < |fields|
    requires s in ReachedMember(fields[i].key, fields[i].value, plan.from)
    requires
      t in ReachedMember(fields[i].key, RewriteMember(fields[i].key, fields[i].value, plan), seen)
    ensures t in Reached(Rewrite(Obj(fields), plan), seen)
  {
    OfFields(fields, plan);
    var after := Rewrite(Obj(fields), plan).fields;
    if Written(fields, plan, fields[i].key).Some? {
      WrittenIsString(fields, plan, i);
    }
    hide Rewrite, Written, Declared, RewriteMember;
    assert t in ReachedMember(after[i].key, after[i].value, seen);
  }

  lemma {:induction false} StillReachedMember(key: string, v: Json, plan: Plan, seen: SourceType,
                                              s: Text, t: Text)
    requires Valid(v) && Becomes(plan, seen, s, t) && s in ReachedMember(key, v, plan.from)
    ensures t in ReachedMember(key, RewriteMember(key, v, plan), seen)
    decreases v, 2
  {
    if key == "resources" && v.Arr? {
      OfResources(v.items, plan);
      var i :| 0 <= i < |v.items| && s in ReachedResource(v.items[i], plan.from);
      StillReachedResource(v.items[i], plan, seen, s, t);
    } else {
      StillReached(v, plan, seen, s, t);
    }
  }

  lemma {:induction false} StillReachedResource(v: Json, plan: Plan, seen: SourceType, s: Text, t: Text)
    requires Valid(v) && Becomes(plan, seen, s, t) && s in ReachedResource(v, plan.from)
    ensures t in ReachedResource(RewriteResource(v, plan), seen)
    decreases v, 1
  {
    var next := Rewrite(v, plan);
    if s in Reached(v, plan.from) {
      StillReached(v, plan, seen, s, t);
    }
    if EncodedData(v).Some? {
      var inner := EncodedData(v).value;
      if s in Reached(inner, plan.from) {
        StillReached(inner, plan, seen, s, t);
      }
      RewrittenResource(v, plan);
      var text :| RewriteResource(v, plan) == Obj(Put(next.fields, "data", Str(text)))
                  && ParseJson(text) == Some(Rewrite(inner, plan));
      hide Reached, Rewrite, RewriteResource, Becomes;
      ReachedWithData(next, text, seen);
    }
  }
}
