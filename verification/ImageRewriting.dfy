/**
 * What rewriting image references means: which pairs a rewritten record has, which references a
 * visit still finds afterwards, and that rewritten values are values.
 */
module ImageRewriting {
  import opened Wrappers
  import opened Sequences
  import opened Json
  import opened ImageReferences

  // ---------- The fields of one rewritten record ----------

  predicate IsPair(pair: Pair) {
    pair == IMAGE_PAIR || pair == FILL_PAIR || pair == SOURCE_PAIR
  }

  /** The value of a key after the rewrite, by what the record held before. */
  lemma RewrittenKey(fields: seq<Field>, plan: Plan, key: string)
    ensures
      var after := Rewrite(Obj(fields), plan).fields;
      Get(after, key)
      == match Get(fields, key)
         case None => None
         case Some(v) =>
           match Written(fields, plan, key)
           case Some(text) => Some(Str(text))
           case None => Some(RewriteMember(key, v, plan))
  {
    OfFields(fields, plan);
    SameKeys(Rewrite(Obj(fields), plan).fields, fields, key);
  }

  lemma MemberKeepsStrings(key: string, v: Json, plan: Plan)
    ensures RewriteMember(key, v, plan).Str? <==> v.Str?
    ensures v.Str? ==> RewriteMember(key, v, plan) == v
  {}

  /** Whether a mapped pair writes the source field of this pair. */
  predicate SourceMapped(fields: seq<Field>, plan: Plan, pair: Pair) {
    if pair == FILL_PAIR then Mapped(fields, plan, FILL_PAIR)
    else Mapped(fields, plan, IMAGE_PAIR) || Mapped(fields, plan, SOURCE_PAIR)
  }

  /** The text of a pair's source field, whatever its type field says. */
  function SourceText(fields: seq<Field>, pair: Pair): Option<Text> {
    match Get(fields, pair.sourceKey)
    case Some(Str(text)) => IfNonEmpty(text)
    case _ => None
  }

  function IfNonEmpty(text: Text): Option<Text> {
    if NonEmpty(text) then Some(text) else None
  }

  lemma WrittenOfPair(fields: seq<Field>, plan: Plan, pair: Pair)
    requires IsPair(pair)
    ensures Written(fields, plan, pair.typeKey)
            == if Mapped(fields, plan, pair) then Some(Tag(plan.to)) else None
    ensures SourceMapped(fields, plan, pair)
            ==> SourceText(fields, pair).Some?
                && SourceText(fields, pair).value in plan.replacements
                && Written(fields, plan, pair.sourceKey)
                   == Some(plan.replacements[SourceText(fields, pair).value])
    ensures !SourceMapped(fields, plan, pair) ==> Written(fields, plan, pair.sourceKey).None?
    ensures Active(fields, plan.from, pair)
            == if Get(fields, pair.typeKey) == Some(Str(Tag(plan.from)))
               then SourceText(fields, pair) else None
  {}

  /** The source text and the type tag of a pair after the rewrite. */
  lemma RewrittenPair(fields: seq<Field>, plan: Plan, pair: Pair)
    requires IsPair(pair)
    ensures
      var after := Rewrite(Obj(fields), plan).fields;
      && SourceText(after, pair)
         == (if SourceMapped(fields, plan, pair)
             then IfNonEmpty(plan.replacements[SourceText(fields, pair).value])
             else SourceText(fields, pair))
      && (forall tag: Text ::
            Get(after, pair.typeKey) == Some(Str(tag))
            <==> if Mapped(fields, plan, pair) then tag == Tag(plan.to)
                 else Get(fields, pair.typeKey) == Some(Str(tag)))
  {
    RewrittenKey(fields, plan, pair.sourceKey);
    RewrittenKey(fields, plan, pair.typeKey);
    WrittenOfPair(fields, plan, pair);
    if Get(fields, pair.sourceKey).Some? {
      MemberKeepsStrings(pair.sourceKey, Get(fields, pair.sourceKey).value, plan);
    }
    if Get(fields, pair.typeKey).Some? {
      MemberKeepsStrings(pair.typeKey, Get(fields, pair.typeKey).value, plan);
    }
  }

  // ---------- Replacing the data of a resource record ----------

  lemma GetAfterPut(fields: seq<Field>, text: Text)
    requires DistinctKeys(fields) && Has(fields, "data")
    ensures
      var updated := Put(fields, "data", Str(text));
      && updated == fields[IndexOf(fields, "data") := Field("data", Str(text))]
      && (forall key | key != "data" :: Get(updated, key) == Get(fields, key))
      && Get(updated, "data") == Some(Str(text))
      && DistinctKeys(updated)
  {
    var updated := Put(fields, "data", Str(text));
    hide DistinctKeys;
    forall key {
      SameKeys(updated, fields, key);
    }
    KeysStay(fields, updated);
  }

  lemma KeysStay(fields: seq<Field>, updated: seq<Field>)
    requires DistinctKeys(fields) && |updated| == |fields|
    requires forall i | 0 <= i < |fields| :: updated[i].key == fields[i].key
    ensures DistinctKeys(updated)
  {
  }

  /** Text in the `data` field takes part in no pair. */
  lemma PutData(fields: seq<Field>, text: Text, plan: Plan)
    requires DistinctKeys(fields)
    requires Has(fields, "data") && Get(fields, "data").value.Str?
    ensures Rewrite(Obj(Put(fields, "data", Str(text))), plan).fields
            == Put(Rewrite(Obj(fields), plan).fields, "data", Str(text))
  {
    hide Rewrite, RewriteMember, Written, Active, Mapped;
    var updated := Put(fields, "data", Str(text));
    var after, result := Rewrite(Obj(fields), plan).fields, Rewrite(Obj(updated), plan).fields;
    GetAfterPut(fields, text);
    SameWriting(fields, updated, plan);
    OfFields(fields, plan);
    OfFields(updated, plan);
    SameKeys(after, fields, "data");
    MemberKeepsStrings("data", Str(text), plan);
    var d := IndexOf(fields, "data");
    forall i | 0 <= i < |fields|
      ensures result[i] == if i == d then Field("data", Str(text)) else after[i]
    {
      SameWritten(fields, updated, plan, fields[i].key);
    }
    assert result == after[d := Field("data", Str(text))];
  }

  /** Two records with the same members, except for `data`, declare the same pairs. */
  lemma SameWriting(a: seq<Field>, b: seq<Field>, plan: Plan)
    requires forall key | key != "data" :: Get(a, key) == Get(b, key)
    ensures forall pair | IsPair(pair) :: Active(a, plan.from, pair) == Active(b, plan.from, pair)
    ensures forall pair | IsPair(pair) :: Mapped(a, plan, pair) == Mapped(b, plan, pair)
  {
    forall pair | IsPair(pair)
      ensures Active(a, plan.from, pair) == Active(b, plan.from, pair)
    {
      assert pair.sourceKey != "data" && pair.typeKey != "data";
      assert Get(a, pair.sourceKey) == Get(b, pair.sourceKey);
      assert Get(a, pair.typeKey) == Get(b, pair.typeKey);
    }
  }

  lemma SameWritten(a: seq<Field>, b: seq<Field>, plan: Plan, key: string)
    requires forall pair | IsPair(pair) :: Active(a, plan.from, pair) == Active(b, plan.from, pair)
    requires forall pair | IsPair(pair) :: Mapped(a, plan, pair) == Mapped(b, plan, pair)
    ensures Written(a, plan, key) == Written(b, plan, key)
    ensures Written(a, plan, "data") == None
  {
    assert Active(a, plan.from, IMAGE_PAIR) == Active(b, plan.from, IMAGE_PAIR);
    assert Active(a, plan.from, FILL_PAIR) == Active(b, plan.from, FILL_PAIR);
    assert Active(a, plan.from, SOURCE_PAIR) == Active(b, plan.from, SOURCE_PAIR);
    hide Active;
  }

  /** A resource's data, read back after the rewrite, is the rewritten data. */
  lemma RewrittenResource(v: Json, plan: Plan)
    requires EncodedData(v).Some?
    ensures
      var next := Rewrite(v, plan);
      && next.Obj? && Get(next.fields, "data") == Get(v.fields, "data")
      && exists text: Text ::
           && RewriteResource(v, plan) == Obj(Put(next.fields, "data", Str(text)))
           && ParseJson(text) == Some(Rewrite(EncodedData(v).value, plan))
  {
    var inner := EncodedData(v).value;
    var next := Rewrite(v, plan);
    RewrittenKey(v.fields, plan, "data");
    var before := Get(v.fields, "data").value;
    MemberKeepsStrings("data", before, plan);
    assert Written(v.fields, plan, "data").None?;
    if Changed(inner, plan) {
      var text := Stringify(Rewrite(inner, plan));
      assert RewriteResource(v, plan) == Obj(Put(next.fields, "data", Str(text)));
    } else {
      Unchanged(inner, plan);
      assert Put(next.fields, "data", before) == next.fields;
      assert RewriteResource(v, plan) == Obj(Put(next.fields, "data", Str(before.text)));
    }
  }

  // ---------- The visit after the rewrite ----------

  /**
   * What a rewrite leaves of the visited sources for a later visit: its replacements, when that
   * visit looks for the new type, and otherwise the sources that it does not map.
   */
  function Remaining(sources: seq<Text>, plan: Plan, seen: SourceType): seq<Text> {
    if sources == [] then []
    else RemainingOne(sources[0], plan, seen) + Remaining(sources[1..], plan, seen)
  }

  function RemainingOne(source: Text, plan: Plan, seen: SourceType): seq<Text> {
    if source in plan.replacements then
      if seen == plan.to then [plan.replacements[source]] else []
    else
      if seen == plan.to then [] else [source]
  }

  lemma {:induction false} RemainingConcat(a: seq<Text>, b: seq<Text>, plan: Plan, seen: SourceType)
    ensures Remaining(a + b, plan, seen) == Remaining(a, plan, seen) + Remaining(b, plan, seen)
  {
    if a == [] {
      assert a + b == b;
    } else {
      hide *;
      RemainingConcat(a[1..], b, plan, seen);
      RemainingStep(a, plan, seen);
      RemainingStep(a + b, plan, seen);
      FirstOfConcat(a, b);
      Associates(RemainingOne(a[0], plan, seen), Remaining(a[1..], plan, seen), Remaining(b, plan, seen));
    }
  }

  lemma RemainingStep(sources: seq<Text>, plan: Plan, seen: SourceType)
    requires sources != []
    ensures Remaining(sources, plan, seen)
            == RemainingOne(sources[0], plan, seen) + Remaining(sources[1..], plan, seen)
  {}

  /** The later visit looks for the old type, or for a new type that the value did not use. */
  predicate Looks(before: seq<Text>, plan: Plan, seen: SourceType) {
    && plan.from != plan.to
    && (seen == plan.from
        || (before == [] && forall s | s in plan.replacements :: NonEmpty(plan.replacements[s])))
  }

  lemma PairVisitedAfter(fields: seq<Field>, plan: Plan, pair: Pair, seen: SourceType)
    requires IsPair(pair)
    requires Looks(Sources(PairReference(fields, plan.to, pair)), plan, seen)
    ensures
      Sources(PairReference(Rewrite(Obj(fields), plan).fields, seen, pair))
      == Remaining(Sources(PairReference(fields, plan.from, pair)), plan, seen)
  {
    var after := Rewrite(Obj(fields), plan).fields;
    var later := plan.(from := seen);
    RewrittenPair(fields, plan, pair);
    WrittenOfPair(fields, plan, pair);
    WrittenOfPair(fields, later, pair);
    WrittenOfPair(after, later, pair);
    hide Rewrite, RewriteMember, Written;
    var source := Active(fields, plan.from, pair);
    assert Mapped(fields, plan, pair) ==> SourceMapped(fields, plan, pair);
    if seen == plan.to {
      assert Active(fields, seen, pair).None?;
      assert Active(after, seen, pair)
             == if Mapped(fields, plan, pair) then Some(plan.replacements[source.value]) else None;
    } else {
      assert Active(after, seen, pair) == if Mapped(fields, plan, pair) then None else source;
    }
  }

  lemma PairsVisitedAfter(fields: seq<Field>, plan: Plan, seen: SourceType)
    requires Looks(Sources(ImageFieldPairs(fields, plan.to)), plan, seen)
    ensures
      Sources(ImageFieldPairs(Rewrite(Obj(fields), plan).fields, seen))
      == Remaining(Sources(ImageFieldPairs(fields, plan.from)), plan, seen)
  {
    var after := Rewrite(Obj(fields), plan).fields;
    SplitSources(fields, plan.to);
    PairVisitedAfter(fields, plan, IMAGE_PAIR, seen);
    PairVisitedAfter(fields, plan, FILL_PAIR, seen);
    PairVisitedAfter(fields, plan, SOURCE_PAIR, seen);
    SplitSources(fields, plan.from);
    SplitSources(after, seen);
    hide *;
    var a := Sources(PairReference(fields, plan.from, IMAGE_PAIR));
    var b := Sources(PairReference(fields, plan.from, FILL_PAIR));
    var c := Sources(PairReference(fields, plan.from, SOURCE_PAIR));
    RemainingConcat(a + b, c, plan, seen);
    RemainingConcat(a, b, plan, seen);
  }

  lemma SplitSources(fields: seq<Field>, from: SourceType)
    ensures Sources(ImageFieldPairs(fields, from))
            == Sources(PairReference(fields, from, IMAGE_PAIR))
               + Sources(PairReference(fields, from, FILL_PAIR))
               + Sources(PairReference(fields, from, SOURCE_PAIR))
  {}

  // A visit that finds nothing finds nothing in any part.

  lemma {:induction false} NothingInItems(items: seq<Json>, from: SourceType)
    requires VisitItems(items, from) == []
    ensures forall i | 0 <= i < |items| :: Visit(items[i], from) == []
  {
    if items != [] {
      NothingInItems(items[1..], from);
    }
  }

  lemma {:induction false} NothingInResources(items: seq<Json>, from: SourceType)
    requires VisitResources(items, from) == []
    ensures forall i | 0 <= i < |items| :: VisitResource(items[i], from) == []
  {
    if items != [] {
      NothingInResources(items[1..], from);
    }
  }

  lemma {:induction false} NothingInFields(fields: seq<Field>, from: SourceType)
    requires VisitFields(fields, from) == []
    ensures forall i | 0 <= i < |fields| && fields[i].key != "resources" ::
      Visit(fields[i].value, from) == []
  {
    if fields != [] {
      NothingInFields(fields[1..], from);
    }
  }

  lemma NothingInRecord(fields: seq<Field>, from: SourceType)
    requires DistinctKeys(fields) && Visit(Obj(fields), from) == []
    ensures Sources(ImageFieldPairs(fields, from)) == []
    ensures forall i | 0 <= i < |fields| ::
      VisitMember(fields[i].key, fields[i].value, from) == []
  {
    VisitRecord(fields, from);
    NothingInFields(fields, from);
    forall i | 0 <= i < |fields|
      ensures VisitMember(fields[i].key, fields[i].value, from) == []
    {
      if fields[i].key == "resources" {
        GetAt(fields, i);
      }
    }
  }

  // Lists of parts.

  lemma {:induction false} VisitItemsAfter(
      items: seq<Json>, after: seq<Json>, plan: Plan, seen: SourceType)
    requires |after| == |items|
    requires forall i | 0 <= i < |items| ::
      Visit(after[i], seen) == Remaining(Visit(items[i], plan.from), plan, seen)
    ensures VisitItems(after, seen) == Remaining(VisitItems(items, plan.from), plan, seen)
  {
    if items != [] {
      VisitItemsAfter(items[1..], after[1..], plan, seen);
      RemainingConcat(Visit(items[0], plan.from), VisitItems(items[1..], plan.from), plan, seen);
    }
  }

  lemma {:induction false} VisitResourcesAfter(
      items: seq<Json>, after: seq<Json>, plan: Plan, seen: SourceType)
    requires |after| == |items|
    requires forall i | 0 <= i < |items| ::
      VisitResource(after[i], seen) == Remaining(VisitResource(items[i], plan.from), plan, seen)
    ensures VisitResources(after, seen) == Remaining(VisitResources(items, plan.from), plan, seen)
  {
    if items != [] {
      VisitResourcesAfter(items[1..], after[1..], plan, seen);
      RemainingConcat(VisitResource(items[0], plan.from),
                      VisitResources(items[1..], plan.from), plan, seen);
    }
  }

  /** What a record's member contributes to the visit. */
  function VisitMember(key: string, v: Json, from: SourceType): seq<Text> {
    if key == "resources" then VisitSerializedResources(v, from) else Visit(v, from)
  }

  lemma {:induction false} VisitFieldsAfter(
      fields: seq<Field>, after: seq<Field>, plan: Plan, seen: SourceType)
    requires |after| == |fields|
    requires forall i | 0 <= i < |fields| ::
      && after[i].key == fields[i].key
      && VisitMember(fields[i].key, after[i].value, seen)
         == Remaining(VisitMember(fields[i].key, fields[i].value, plan.from), plan, seen)
    ensures VisitFields(after, seen) == Remaining(VisitFields(fields, plan.from), plan, seen)
  {
    if fields != [] {
      VisitFieldsAfter(fields[1..], after[1..], plan, seen);
      var first := if fields[0].key != "resources" then Visit(fields[0].value, plan.from) else [];
      RemainingConcat(first, VisitFields(fields[1..], plan.from), plan, seen);
    }
  }

  function VisitResourcesMember(fields: seq<Field>, from: SourceType): seq<Text> {
    match Get(fields, "resources")
    case Some(resources) => VisitSerializedResources(resources, from)
    case None => []
  }

  lemma VisitRecord(fields: seq<Field>, from: SourceType)
    ensures Visit(Obj(fields), from)
            == Sources(ImageFieldPairs(fields, from)) + VisitResourcesMember(fields, from)
               + VisitFields(fields, from)
  {}

  /** A field that a mapped pair writes holds a string before and after. */
  lemma WrittenIsString(fields: seq<Field>, plan: Plan, i: nat)
    requires DistinctKeys(fields) && i < |fields|
    requires Written(fields, plan, fields[i].key).Some?
    ensures fields[i].value.Str? && fields[i].key != "resources"
  {
    GetAt(fields, i);
  }

  /** What each field contributes to the visit, before and after. */
  ghost predicate MembersVisitedAfter(fields: seq<Field>, plan: Plan, seen: SourceType) {
    forall i | 0 <= i < |fields| ::
      VisitMember(fields[i].key, RewriteMember(fields[i].key, fields[i].value, plan), seen)
      == Remaining(VisitMember(fields[i].key, fields[i].value, plan.from), plan, seen)
  }

  lemma StringHasNoReferences(text: Text, key: string, from: SourceType)
    requires key != "resources"
    ensures VisitMember(key, Str(text), from) == []
  {
  }

  lemma FieldVisitedAfter(fields: seq<Field>, plan: Plan, seen: SourceType, i: nat)
    requires DistinctKeys(fields) && i < |fields| && MembersVisitedAfter(fields, plan, seen)
    ensures |Rewrite(Obj(fields), plan).fields| == |fields|
    ensures
      var after := Rewrite(Obj(fields), plan).fields;
      && after[i].key == fields[i].key
      && VisitMember(fields[i].key, after[i].value, seen)
         == Remaining(VisitMember(fields[i].key, fields[i].value, plan.from), plan, seen)
  {
    hide VisitMember, Written, Rewrite, DistinctKeys, RewriteMember;
    OfFields(fields, plan);
    if Written(fields, plan, fields[i].key).Some? {
      WrittenIsString(fields, plan, i);
      StringHasNoReferences(fields[i].value.text, fields[i].key, plan.from);
      StringHasNoReferences(Written(fields, plan, fields[i].key).value, fields[i].key, seen);
    }
  }

  lemma ResourcesMemberVisitedAfter(fields: seq<Field>, plan: Plan, seen: SourceType)
    requires DistinctKeys(fields) && MembersVisitedAfter(fields, plan, seen)
    ensures VisitResourcesMember(Rewrite(Obj(fields), plan).fields, seen)
            == Remaining(VisitResourcesMember(fields, plan.from), plan, seen)
  {
    RewrittenKey(fields, plan, "resources");
    if Get(fields, "resources").Some? {
      var i := IndexOf(fields, "resources");
      if Written(fields, plan, fields[i].key).Some? {
        WrittenIsString(fields, plan, i);
      }
      assert VisitMember(fields[i].key, RewriteMember(fields[i].key, fields[i].value, plan), seen)
             == Remaining(VisitMember(fields[i].key, fields[i].value, plan.from), plan, seen);
    }
    hide Written, Rewrite, DistinctKeys, RewriteMember, VisitSerializedResources, Visit;
  }

  lemma VisitRecordAfter(fields: seq<Field>, plan: Plan, seen: SourceType)
    requires DistinctKeys(fields)
    requires Looks(Sources(ImageFieldPairs(fields, plan.to)), plan, seen)
    requires MembersVisitedAfter(fields, plan, seen)
    ensures Visit(Rewrite(Obj(fields), plan), seen)
            == Remaining(Visit(Obj(fields), plan.from), plan, seen)
  {
    hide *;
    OfFields(fields, plan);
    var after := Rewrite(Obj(fields), plan).fields;
    assert Rewrite(Obj(fields), plan) == Obj(after);
    PairsVisitedAfter(fields, plan, seen);
    ResourcesMemberVisitedAfter(fields, plan, seen);
    forall i | 0 <= i < |fields|
      ensures after[i].key == fields[i].key
      ensures VisitMember(fields[i].key, after[i].value, seen)
              == Remaining(VisitMember(fields[i].key, fields[i].value, plan.from), plan, seen)
    {
      FieldVisitedAfter(fields, plan, seen, i);
    }
    VisitFieldsAfter(fields, after, plan, seen);
    VisitRecord(fields, plan.from);
    VisitRecord(after, seen);
    RemainingConcat(Sources(ImageFieldPairs(fields, plan.from)),
                    VisitResourcesMember(fields, plan.from), plan, seen);
    RemainingConcat(Sources(ImageFieldPairs(fields, plan.from))
                    + VisitResourcesMember(fields, plan.from),
                    VisitFields(fields, plan.from), plan, seen);
  }

  lemma {:induction false} VisitFieldsAlike(a: seq<Field>, b: seq<Field>, from: SourceType)
    requires |a| == |b|
    requires forall i | 0 <= i < |a| ::
      a[i].key == b[i].key && (a[i].value == b[i].value || (a[i].value.Str? && b[i].value.Str?))
    ensures VisitFields(a, from) == VisitFields(b, from)
  {
    if a != [] {
      VisitFieldsAlike(a[1..], b[1..], from);
    }
  }

  /**
   * After a rewrite a visit for the old type finds exactly the references it found before whose
   * source was not mapped, in the same order; and when the new type was not in use before, a
   * visit for the new type finds exactly the replacements of the mapped ones, in the same order.
   */
  lemma {:induction false} VisitAfterRewrite(v: Json, plan: Plan, seen: SourceType)
    requires Valid(v) && Looks(Visit(v, plan.to), plan, seen)
    ensures Visit(Rewrite(v, plan), seen) == Remaining(Visit(v, plan.from), plan, seen)
    decreases v, 0
  {
    match v
    case Arr(items) =>
      if seen == plan.to {
        NothingInItems(items, plan.to);
      }
      forall i | 0 <= i < |items|
        ensures Visit(Rewrite(items[i], plan), seen)
                == Remaining(Visit(items[i], plan.from), plan, seen)
      {
        VisitAfterRewrite(items[i], plan, seen);
      }
      OfItems(items, plan);
      VisitItemsAfter(items, Rewrite(v, plan).items, plan, seen);
    case Obj(fields) =>
      if seen == plan.to {
        NothingInRecord(fields, plan.to);
      }
      forall i | 0 <= i < |fields|
        ensures VisitMember(fields[i].key, RewriteMember(fields[i].key, fields[i].value, plan), seen)
                == Remaining(VisitMember(fields[i].key, fields[i].value, plan.from), plan, seen)
      {
        VisitMemberAfter(fields[i].key, fields[i].value, plan, seen);
      }
      VisitRecordAfter(fields, plan, seen);
    case _ =>
  }

  lemma {:induction false} VisitMemberAfter(key: string, v: Json, plan: Plan, seen: SourceType)
    requires Valid(v) && Looks(VisitMember(key, v, plan.to), plan, seen)
    ensures VisitMember(key, RewriteMember(key, v, plan), seen)
            == Remaining(VisitMember(key, v, plan.from), plan, seen)
    decreases v, 2
  {
    if key != "resources" {
      VisitAfterRewrite(v, plan, seen);
    } else if v.Arr? {
      if seen == plan.to {
        NothingInResources(v.items, plan.to);
      }
      forall i | 0 <= i < |v.items|
        ensures VisitResource(RewriteResource(v.items[i], plan), seen)
                == Remaining(VisitResource(v.items[i], plan.from), plan, seen)
      {
        VisitResourceAfter(v.items[i], plan, seen);
      }
      OfResources(v.items, plan);
      VisitResourcesAfter(v.items, RewriteMember(key, v, plan).items, plan, seen);
    }
  }

  lemma {:induction false} VisitResourceAfter(v: Json, plan: Plan, seen: SourceType)
    requires Valid(v) && Looks(VisitResource(v, plan.to), plan, seen)
    ensures VisitResource(RewriteResource(v, plan), seen)
            == Remaining(VisitResource(v, plan.from), plan, seen)
    decreases v, 1
  {
    hide Visit, Rewrite, Remaining;
    VisitAfterRewrite(v, plan, seen);
    var next := Rewrite(v, plan);
    match EncodedData(v)
    case Some(inner) =>
      VisitAfterRewrite(inner, plan, seen);
      RewrittenResource(v, plan);
      var text :| RewriteResource(v, plan) == Obj(Put(next.fields, "data", Str(text)))
                  && ParseJson(text) == Some(Rewrite(inner, plan));
      VisitWithData(next, text, seen);
      RemainingConcat(Visit(v, plan.from), Visit(inner, plan.from), plan, seen);
    case None =>
      DataOfRewritten(v, plan);
      assert Visit(v, plan.from) + [] == Visit(v, plan.from);
  }

  lemma DataOfRewritten(v: Json, plan: Plan)
    ensures EncodedData(Rewrite(v, plan)) == EncodedData(v)
  {
    if v.Obj? {
      RewrittenKey(v.fields, plan, "data");
      if Get(v.fields, "data").Some? {
        MemberKeepsStrings("data", Get(v.fields, "data").value, plan);
      }
    }
  }

  lemma SamePairs(a: seq<Field>, b: seq<Field>, from: SourceType)
    requires forall pair | IsPair(pair) :: Active(a, from, pair) == Active(b, from, pair)
    ensures ImageFieldPairs(a, from) == ImageFieldPairs(b, from)
  {
    assert PairReference(a, from, IMAGE_PAIR) == PairReference(b, from, IMAGE_PAIR);
    assert PairReference(a, from, FILL_PAIR) == PairReference(b, from, FILL_PAIR);
    assert PairReference(a, from, SOURCE_PAIR) == PairReference(b, from, SOURCE_PAIR);
  }

  /** Other text in the `data` field changes nothing else in the visit of a record. */
  lemma VisitWithData(v: Json, text: Text, from: SourceType)
    requires v.Obj? && DistinctKeys(v.fields)
    requires Has(v.fields, "data") && Get(v.fields, "data").value.Str?
    ensures
      var updated := Obj(Put(v.fields, "data", Str(text)));
      Visit(updated, from) == Visit(v, from) && EncodedData(updated) == ParseJson(text)
  {
    hide Visit, VisitFields, ImageFieldPairs, Active, Mapped, IndexOf, VisitSerializedResources;
    var updated := Put(v.fields, "data", Str(text));
    GetAfterPut(v.fields, text);
    SameWriting(v.fields, updated, Plan(from, from, map[]));
    SamePairs(v.fields, updated, from);
    assert VisitResourcesMember(updated, from) == VisitResourcesMember(v.fields, from);
    VisitRecord(v.fields, from);
    VisitRecord(updated, from);
    VisitFieldsAlike(v.fields, updated, from);
  }

  // ---------- Rewritten values are values ----------

  /** The replacements are strings as JavaScript has them: their JSON has distinct keys. */
  predicate ValidPlan(plan: Plan) {
    forall s | s in plan.replacements :: Valid(Str(plan.replacements[s]))
  }

  lemma WrittenIsValid(fields: seq<Field>, plan: Plan, key: string)
    requires ValidPlan(plan)
    ensures Written(fields, plan, key).Some? ==> Valid(Str(Written(fields, plan, key).value))
  {
    hide Active, Valid;
    TagIsValid(plan.to);
  }

  lemma TagIsValid(t: SourceType)
    ensures Valid(Str(Tag(t)))
  {
  }

  lemma {:induction false} RewriteIsValid(v: Json, plan: Plan)
    requires Valid(v) && ValidPlan(plan)
    ensures Valid(Rewrite(v, plan))
    decreases v, 0
  {
    match v
    case Arr(items) =>
      forall i | 0 <= i < |items| ensures Valid(Rewrite(items[i], plan)) {
        RewriteIsValid(items[i], plan);
      }
      OfItems(items, plan);
    case Obj(fields) =>
      OfFields(fields, plan);
      var after := Rewrite(v, plan).fields;
      forall i | 0 <= i < |fields| ensures Valid(after[i].value) {
        WrittenIsValid(fields, plan, fields[i].key);
        MemberIsValid(fields[i].key, fields[i].value, plan);
      }
      hide Written, RewriteMember, Rewrite;
      assert DistinctKeys(after);
    case _ =>
  }

  lemma {:induction false} MemberIsValid(key: string, v: Json, plan: Plan)
    requires Valid(v) && ValidPlan(plan)
    ensures Valid(RewriteMember(key, v, plan))
    decreases v, 2
  {
    if key == "resources" && v.Arr? {
      OfResources(v.items, plan);
      forall i | 0 <= i < |v.items| ensures Valid(RewriteResource(v.items[i], plan)) {
        RewriteIsValid(v.items[i], plan);
        if EncodedData(v.items[i]).Some? {
          RewriteIsValid(EncodedData(v.items[i]).value, plan);
          RewrittenKey(v.items[i].fields, plan, "data");
        }
        ResourceIsValid(v.items[i], plan);
      }
    } else {
      RewriteIsValid(v, plan);
    }
  }

  lemma ResourceIsValid(v: Json, plan: Plan)
    requires Valid(v) && Valid(Rewrite(v, plan))
    requires EncodedData(v).Some? ==> Valid(Rewrite(EncodedData(v).value, plan))
    ensures Valid(RewriteResource(v, plan))
  {
    if EncodedData(v).Some? {
      var next := Rewrite(v, plan);
      var text := Stringify(Rewrite(EncodedData(v).value, plan));
      SameKeys(next.fields, v.fields, "data");
      hide Rewrite;
      GetAfterPut(next.fields, text);
      assert Valid(Str(text));
    }
  }

  // ---------- One record in full ----------

  /** A record with one reference, as it is written in content. */
  function Record(sourceKey: string, typeKey: string, source: Text, tag: string): Json {
    Obj([Field(sourceKey, Str(source)), Field(typeKey, Str(Plain(tag)))])
  }

  predicate Keys(sourceKey: string, typeKey: string) {
    || (sourceKey == "source" && typeKey == "imageSourceType")
    || (sourceKey == "fillImageSource" && typeKey == "fillImageSourceType")
    || (sourceKey == "source" && typeKey == "sourceType")
  }

  function TagName(from: SourceType): string {
    match from
    case Base64 => "BASE64"
    case Uuid => "UUID"
  }

  lemma ActiveInFull(sourceKey: string, typeKey: string, source: Text, from: SourceType,
                     wanted: SourceType, pair: Pair)
    requires Keys(sourceKey, typeKey) && NonEmpty(source) && IsPair(pair)
    ensures
      Active(Record(sourceKey, typeKey, source, TagName(from)).fields, wanted, pair)
      == if pair == Pair(sourceKey, typeKey) && from == wanted then Some(source) else None
  {
    var fields := Record(sourceKey, typeKey, source, TagName(from)).fields;
    GetAt(fields, 0);
    GetAt(fields, 1);
    assert "BASE64"[0] != "UUID"[0];
    assert "source" != "fillImageSource" && "imageSourceType"[0] != "sourceType"[0] by {
      assert "source"[0] != "fillImageSource"[0];
    }
    assert pair.typeKey == typeKey || Get(fields, pair.typeKey) == None;
  }

  /** A visit reports the one reference of such a record exactly when it asks for its type. */
  lemma VisitedInFull(sourceKey: string, typeKey: string, source: Text, from: SourceType,
                      wanted: SourceType)
    requires Keys(sourceKey, typeKey) && NonEmpty(source)
    ensures Visit(Record(sourceKey, typeKey, source, TagName(from)), wanted)
            == if from == wanted then [source] else []
  {
    var v := Record(sourceKey, typeKey, source, TagName(from));
    ActiveInFull(sourceKey, typeKey, source, from, wanted, IMAGE_PAIR);
    ActiveInFull(sourceKey, typeKey, source, from, wanted, FILL_PAIR);
    ActiveInFull(sourceKey, typeKey, source, from, wanted, SOURCE_PAIR);
    NothingElse(v.fields, wanted);
    hide Active, Visit, VisitFields, VisitResourcesMember, Get;
    SplitSources(v.fields, wanted);
    VisitRecord(v.fields, wanted);
  }

  lemma NothingElse(fields: seq<Field>, wanted: SourceType)
    requires |fields| == 2 && fields[0].value.Str? && fields[1].value.Str?
    requires fields[0].key != "resources" && fields[1].key != "resources"
    ensures VisitFields(fields, wanted) == [] && VisitResourcesMember(fields, wanted) == []
  {
    assert fields[1..][1..] == [] && VisitFields(fields[1..], wanted) == [];
  }

  /** Such a record with a mapped source has the replacement and the name of the other type. */
  lemma RewrittenInFull(sourceKey: string, typeKey: string, source: Text, plan: Plan)
    requires Keys(sourceKey, typeKey) && NonEmpty(source) && source in plan.replacements
    ensures Rewrite(Record(sourceKey, typeKey, source, TagName(plan.from)), plan)
            == Record(sourceKey, typeKey, plan.replacements[source], TagName(plan.to))
  {
    var v := Record(sourceKey, typeKey, source, TagName(plan.from));
    ActiveInFull(sourceKey, typeKey, source, plan.from, plan.from, IMAGE_PAIR);
    ActiveInFull(sourceKey, typeKey, source, plan.from, plan.from, FILL_PAIR);
    ActiveInFull(sourceKey, typeKey, source, plan.from, plan.from, SOURCE_PAIR);
    hide Active, Rewrite, Visit, Get;
    OfFields(v.fields, plan);
    assert Written(v.fields, plan, sourceKey) == Some(plan.replacements[source]);
    assert Written(v.fields, plan, typeKey) == Some(Plain(TagName(plan.to)));
    var result := Rewrite(v, plan).fields;
    assert result[0] == Field(sourceKey, Str(plan.replacements[source]));
    assert result[1] == Field(typeKey, Str(Plain(TagName(plan.to))));
    assert result == [result[0], result[1]];
  }
}
