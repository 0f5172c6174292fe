/**
 * Image references inside JSON: visiting them and rewriting them, also inside the JSON that
 * `resources[].data` strings serialise (image-references.ts).
 */
module ImageReferences {
  import opened Wrappers
  import opened Json

  datatype SourceType = Base64 | Uuid

  function Tag(t: SourceType): Text {
    match t
    case Base64 => Plain("BASE64")
    case Uuid => Plain("UUID")
  }

  /** A rewrite from one source type to another, by a map of sources. */
  datatype Plan = Plan(from: SourceType, to: SourceType, replacements: map<Text, Text>)

  datatype Pair = Pair(sourceKey: string, typeKey: string)

  const IMAGE_PAIR := Pair("source", "imageSourceType")
  const FILL_PAIR := Pair("fillImageSource", "fillImageSourceType")
  const SOURCE_PAIR := Pair("source", "sourceType")

  datatype Reference = Reference(source: Text, pair: Pair)

  // ---------- One record ----------

  /** The source that a pair of fields declares, when its type field says `from`. */
  function Active(fields: seq<Field>, from: SourceType, pair: Pair): Option<Text> {
    if Get(fields, pair.typeKey) != Some(Str(Tag(from))) then None
    else
      match Get(fields, pair.sourceKey)
      case Some(Str(text)) => if NonEmpty(text) then Some(text) else None
      case _ => None
  }

  function PairReference(fields: seq<Field>, from: SourceType, pair: Pair): seq<Reference> {
    match Active(fields, from, pair)
    case Some(source) => [Reference(source, pair)]
    case None => []
  }

  /** In the order the client collects them: two pairs may share one `source` field. */
  function ImageFieldPairs(fields: seq<Field>, from: SourceType): seq<Reference> {
    PairReference(fields, from, IMAGE_PAIR)
    + PairReference(fields, from, FILL_PAIR)
    + PairReference(fields, from, SOURCE_PAIR)
  }

  predicate Mapped(fields: seq<Field>, plan: Plan, pair: Pair) {
    var source := Active(fields, plan.from, pair);
    source.Some? && source.value in plan.replacements
  }

  predicate AnyMapped(fields: seq<Field>, plan: Plan) {
    Mapped(fields, plan, IMAGE_PAIR) || Mapped(fields, plan, FILL_PAIR)
    || Mapped(fields, plan, SOURCE_PAIR)
  }

  /** What the mapped pairs of a record write to one of its keys. */
  function Written(fields: seq<Field>, plan: Plan, key: string): Option<Text> {
    if key == "source" && Mapped(fields, plan, IMAGE_PAIR) then
      Some(plan.replacements[Active(fields, plan.from, IMAGE_PAIR).value])
    else if key == "source" && Mapped(fields, plan, SOURCE_PAIR) then
      Some(plan.replacements[Active(fields, plan.from, SOURCE_PAIR).value])
    else if key == "fillImageSource" && Mapped(fields, plan, FILL_PAIR) then
      Some(plan.replacements[Active(fields, plan.from, FILL_PAIR).value])
    else if (key == "imageSourceType" && Mapped(fields, plan, IMAGE_PAIR))
         || (key == "fillImageSourceType" && Mapped(fields, plan, FILL_PAIR))
         || (key == "sourceType" && Mapped(fields, plan, SOURCE_PAIR)) then
      Some(Tag(plan.to))
    else None
  }

  /** The JSON serialised in the `data` string of a resource record, if there is any. */
  function EncodedData(resource: Json): (r: Option<Json>)
    ensures r.Some? ==> r.value < resource
    ensures r.Some? ==> resource.Obj? && Has(resource.fields, "data")
    ensures r.Some? && Valid(resource) ==> Valid(r.value)
  {
    if !resource.Obj? then None
    else
      match Get(resource.fields, "data")
      case Some(Str(text)) =>
        assert resource.fields[IndexOf(resource.fields, "data")].value == Str(text);
        assert Valid(resource) ==> Valid(Str(text));
        ParseJson(text)
      case _ => None
  }

  // ---------- Specification of the rewrite ----------

  predicate Changed(v: Json, plan: Plan)
    decreases v, 0
  {
    match v
    case Arr(items) => exists i | 0 <= i < |items| :: Changed(items[i], plan)
    case Obj(fields) =>
      (exists i | 0 <= i < |fields| :: ChangedMember(fields[i].key, fields[i].value, plan))
      || AnyMapped(fields, plan)
    case _ => false
  }

  predicate ChangedMember(key: string, v: Json, plan: Plan)
    decreases v, 2
  {
    if key == "resources" && v.Arr? then
      exists i | 0 <= i < |v.items| :: ChangedResource(v.items[i], plan)
    else
      Changed(v, plan)
  }

  predicate ChangedResource(v: Json, plan: Plan)
    decreases v, 1
  {
    Changed(v, plan)
    || (EncodedData(v).Some? && Changed(EncodedData(v).value, plan))
  }

  function Rewrite(v: Json, plan: Plan): (r: Json)
    ensures v.Obj? <==> r.Obj?
    ensures v.Arr? <==> r.Arr?
    ensures v.Str? ==> r == v
    ensures v.Obj? ==> |r.fields| == |v.fields|
    ensures v.Obj? ==> forall i | 0 <= i < |v.fields| :: r.fields[i].key == v.fields[i].key
    decreases v, 0
  {
    match v
    case Arr(items) =>
      Arr(seq(|items|, i requires 0 <= i < |items| => Rewrite(items[i], plan)))
    case Obj(fields) =>
      Obj(seq(|fields|, i requires 0 <= i < |fields| =>
        Field(fields[i].key,
              match Written(fields, plan, fields[i].key)
              case Some(text) => Str(text)
              case None => RewriteMember(fields[i].key, fields[i].value, plan))))
    case _ => v
  }

  function RewriteMember(key: string, v: Json, plan: Plan): (r: Json)
    ensures v.Obj? <==> r.Obj?
    ensures v.Arr? <==> r.Arr?
    ensures v.Str? ==> r == v
    decreases v, 2
  {
    if key == "resources" && v.Arr? then
      Arr(seq(|v.items|, i requires 0 <= i < |v.items| => RewriteResource(v.items[i], plan)))
    else
      Rewrite(v, plan)
  }

  /** Only data that changed is serialised again; other data keeps its text. */
  function RewriteResource(v: Json, plan: Plan): (r: Json)
    decreases v, 1
  {
    var next := Rewrite(v, plan);
    match EncodedData(v)
    case Some(inner) =>
      if Changed(inner, plan) then
        Obj(Put(next.fields, "data", Str(Stringify(Rewrite(inner, plan)))))
      else next
    case None => next
  }

  // ---------- Specification of the visit ----------

  function Sources(refs: seq<Reference>): (r: seq<Text>)
    ensures |r| == |refs|
  {
    seq(|refs|, i requires 0 <= i < |refs| => refs[i].source)
  }

  function Visit(v: Json, from: SourceType): seq<Text>
    decreases v, 0
  {
    match v
    case Arr(items) => VisitItems(items, from)
    case Obj(fields) =>
      Sources(ImageFieldPairs(fields, from))
      + (match Get(fields, "resources")
         case Some(resources) =>
           assert fields[IndexOf(fields, "resources")].value == resources;
           VisitSerializedResources(resources, from)
         case None => [])
      + VisitFields(fields, from)
    case _ => []
  }

  function VisitItems(items: seq<Json>, from: SourceType): seq<Text>
    decreases items, 0
  {
    if items == [] then [] else Visit(items[0], from) + VisitItems(items[1..], from)
  }

  function VisitFields(fields: seq<Field>, from: SourceType): seq<Text>
    decreases fields, 0
  {
    if fields == [] then []
    else
      (if fields[0].key != "resources" then Visit(fields[0].value, from) else [])
      + VisitFields(fields[1..], from)
  }

  /** A `resources` member that is no array is not visited at all. */
  function VisitSerializedResources(v: Json, from: SourceType): seq<Text>
    decreases v, 1
  {
    if v.Arr? then VisitResources(v.items, from) else []
  }

  function VisitResources(items: seq<Json>, from: SourceType): seq<Text>
    decreases items, 1
  {
    if items == [] then []
    else VisitResource(items[0], from) + VisitResources(items[1..], from)
  }

  function VisitResource(v: Json, from: SourceType): seq<Text>
    decreases v, 1
  {
    Visit(v, from)
    + (match EncodedData(v)
       case Some(inner) => Visit(inner, from)
       case None => [])
  }

  // ---------- A value that is not changed stays the same value ----------

  lemma {:induction false} Unchanged(v: Json, plan: Plan)
    requires !Changed(v, plan)
    ensures Rewrite(v, plan) == v
    decreases v, 0
  {
    match v
    case Arr(items) =>
      forall i | 0 <= i < |items| ensures Rewrite(items[i], plan) == items[i] {
        Unchanged(items[i], plan);
      }
      assert Rewrite(v, plan).items == items;
    case Obj(fields) =>
      forall i | 0 <= i < |fields|
        ensures RewriteMember(fields[i].key, fields[i].value, plan) == fields[i].value
      {
        MemberUnchanged(fields[i].key, fields[i].value, plan);
      }
      assert Rewrite(v, plan).fields == fields;
    case _ =>
  }

  lemma {:induction false} MemberUnchanged(key: string, v: Json, plan: Plan)
    ensures !ChangedMember(key, v, plan) ==> RewriteMember(key, v, plan) == v
    decreases v, 2
  {
    if !ChangedMember(key, v, plan) {
      if key == "resources" && v.Arr? {
        forall i | 0 <= i < |v.items| ensures RewriteResource(v.items[i], plan) == v.items[i] {
          assert !ChangedResource(v.items[i], plan);
          Unchanged(v.items[i], plan);
        }
        assert RewriteMember(key, v, plan).items == v.items;
      } else {
        Unchanged(v, plan);
      }
    }
  }

  // ---------- One step of the specification ----------

  lemma OfItems(items: seq<Json>, plan: Plan)
    ensures Changed(Arr(items), plan) <==> exists i | 0 <= i < |items| :: Changed(items[i], plan)
    ensures Rewrite(Arr(items), plan).Arr? && |Rewrite(Arr(items), plan).items| == |items|
    ensures forall i | 0 <= i < |items| ::
      Rewrite(Arr(items), plan).items[i] == Rewrite(items[i], plan)
  {}

  lemma OfFields(fields: seq<Field>, plan: Plan)
    ensures Changed(Obj(fields), plan)
            <==> AnyMapped(fields, plan)
                 || exists i | 0 <= i < |fields| ::
                      ChangedMember(fields[i].key, fields[i].value, plan)
    ensures Rewrite(Obj(fields), plan).Obj? && |Rewrite(Obj(fields), plan).fields| == |fields|
    ensures forall i | 0 <= i < |fields| ::
      Rewrite(Obj(fields), plan).fields[i]
      == match Written(fields, plan, fields[i].key)
         case Some(text) => Field(fields[i].key, Str(text))
         case None =>
           Field(fields[i].key, RewriteMember(fields[i].key, fields[i].value, plan))
  {}

  lemma OfResources(items: seq<Json>, plan: Plan)
    ensures ChangedMember("resources", Arr(items), plan)
            <==> exists i | 0 <= i < |items| :: ChangedResource(items[i], plan)
    ensures RewriteMember("resources", Arr(items), plan).Arr?
    ensures |RewriteMember("resources", Arr(items), plan).items| == |items|
    ensures forall i | 0 <= i < |items| ::
      RewriteMember("resources", Arr(items), plan).items[i] == RewriteResource(items[i], plan)
  {}

  // ---------- Writing the mapped pairs one after the other ----------

  /** What one mapped reference makes of a field of its record. */
  function WriteReference(reference: Reference, plan: Plan, field: Field): (r: Field)
    requires reference.source in plan.replacements
    ensures r.key == field.key
  {
    if field.key == reference.pair.typeKey then Field(field.key, Str(Tag(plan.to)))
    else if field.key == reference.pair.sourceKey then
      Field(field.key, Str(plan.replacements[reference.source]))
    else field
  }

  /** What the references of a record, handled in order, make of one of its fields. */
  function WrittenSoFar(references: seq<Reference>, plan: Plan, field: Field): (r: Field)
    ensures r.key == field.key
  {
    if references == [] then field
    else
      var last := references[|references| - 1];
      var before := WrittenSoFar(references[..|references| - 1], plan, field);
      if last.source in plan.replacements then WriteReference(last, plan, before) else before
  }

  lemma NothingWritten(plan: Plan, field: Field)
    ensures WrittenSoFar([], plan, field) == field
  {}

  lemma WrittenStep(references: seq<Reference>, k: nat, plan: Plan, field: Field)
    requires k < |references|
    ensures
      WrittenSoFar(references[..k + 1], plan, field)
      == var before := WrittenSoFar(references[..k], plan, field);
         if references[k].source in plan.replacements
         then WriteReference(references[k], plan, before) else before
  {
    assert references[..k + 1][..k] == references[..k];
  }

  lemma WhereWritten(fields: seq<Field>, plan: Plan, reference: Reference, field: Field, i: nat)
    requires DistinctKeys(fields) && i < |fields| && fields[i].key == field.key
    requires Has(fields, reference.pair.sourceKey) && Has(fields, reference.pair.typeKey)
    requires reference.source in plan.replacements
    ensures
      WriteReference(reference, plan, field)
      == if i == IndexOf(fields, reference.pair.typeKey) then
           Field(field.key, Str(Tag(plan.to)))
         else if i == IndexOf(fields, reference.pair.sourceKey) then
           Field(field.key, Str(plan.replacements[reference.source]))
         else field
  {
    GetAt(fields, i);
  }

  lemma WrittenThen(fields: seq<Field>, plan: Plan, pair: Pair, earlier: seq<Reference>, field: Field)
    ensures
      WrittenSoFar(earlier + PairReference(fields, plan.from, pair), plan, field)
      == var before := WrittenSoFar(earlier, plan, field);
         if Mapped(fields, plan, pair) then
           WriteReference(Reference(Active(fields, plan.from, pair).value, pair), plan, before)
         else before
  {
    var all := earlier + PairReference(fields, plan.from, pair);
    if Active(fields, plan.from, pair).Some? {
      assert all[..|all| - 1] == earlier;
    } else {
      assert all == earlier;
    }
  }

  lemma OneSource(fields: seq<Field>, plan: Plan)
    ensures forall pair | Mapped(fields, plan, pair) ::
              Active(fields, plan.from, pair).Some?
              && Active(fields, plan.from, pair).value in plan.replacements
    ensures Mapped(fields, plan, IMAGE_PAIR) && Mapped(fields, plan, SOURCE_PAIR) ==>
              Active(fields, plan.from, IMAGE_PAIR) == Active(fields, plan.from, SOURCE_PAIR)
  {}

  /** The order of the pairs does not matter: two pairs that share a field write it alike. */
  lemma AllWritten(fields: seq<Field>, plan: Plan, field: Field)
    ensures WrittenSoFar(ImageFieldPairs(fields, plan.from), plan, field)
            == match Written(fields, plan, field.key)
               case Some(text) => Field(field.key, Str(text))
               case None => field
  {
    hide WrittenSoFar, PairReference, Active, Mapped;
    var first := PairReference(fields, plan.from, IMAGE_PAIR);
    var second := first + PairReference(fields, plan.from, FILL_PAIR);
    OneSource(fields, plan);
    NothingWritten(plan, field);
    WrittenThen(fields, plan, IMAGE_PAIR, [], field);
    assert [] + first == first;
    WrittenThen(fields, plan, FILL_PAIR, first, field);
    WrittenThen(fields, plan, SOURCE_PAIR, second, field);
  }

  lemma PairFieldsExist(fields: seq<Field>, from: SourceType, k: nat)
    requires k < |ImageFieldPairs(fields, from)|
    ensures
      var r := ImageFieldPairs(fields, from)[k];
      r.pair in [IMAGE_PAIR, FILL_PAIR, SOURCE_PAIR]
      && Active(fields, from, r.pair) == Some(r.source)
      && Has(fields, r.pair.sourceKey) && Has(fields, r.pair.typeKey)
  {}

  lemma SomeMapped(fields: seq<Field>, plan: Plan)
    ensures
      var references := ImageFieldPairs(fields, plan.from);
      AnyMapped(fields, plan)
      <==> exists j | 0 <= j < |references| :: references[j].source in plan.replacements
  {
    var references := ImageFieldPairs(fields, plan.from);
    var first := PairReference(fields, plan.from, IMAGE_PAIR);
    var second := PairReference(fields, plan.from, FILL_PAIR);
    if Mapped(fields, plan, IMAGE_PAIR) {
      assert references[0].source in plan.replacements;
    }
    if Mapped(fields, plan, FILL_PAIR) {
      assert references[|first|].source in plan.replacements;
    }
    if Mapped(fields, plan, SOURCE_PAIR) {
      assert references[|first| + |second|].source in plan.replacements;
    }
    forall j | 0 <= j < |references| && references[j].source in plan.replacements
      ensures AnyMapped(fields, plan)
    {
      PairFieldsExist(fields, plan.from, j);
    }
  }

  // ---------- The client's loops ----------

  /** `rewriteValue`: the rewritten value and whether anything was replaced. */
  method RewriteValue(v: Json, plan: Plan) returns (changed: bool, result: Json)
    requires Valid(v)
    ensures changed == Changed(v, plan)
    ensures result == Rewrite(v, plan)
    decreases v, 0
  {
    match v
    case Arr(items) => changed, result := RewriteItems(items, plan);
    case Obj(fields) => changed, result := RewriteRecord(fields, plan);
    case _ => changed, result := false, v;
  }

  method RewriteItems(items: seq<Json>, plan: Plan) returns (changed: bool, result: Json)
    requires forall i | 0 <= i < |items| :: Valid(items[i])
    ensures changed == Changed(Arr(items), plan)
    ensures result == Rewrite(Arr(items), plan)
    decreases items, 0
  {
    hide *;
    changed := false;
    var rewritten: seq<Json> := [];
    for i := 0 to |items|
      invariant changed <==> exists j | 0 <= j < i :: Changed(items[j], plan)
      invariant |rewritten| == i
      invariant forall j | 0 <= j < i :: rewritten[j] == Rewrite(items[j], plan)
    {
      var itemChanged, item := RewriteValue(items[i], plan);
      changed := changed || itemChanged;
      rewritten := rewritten + [item];
    }
    OfItems(items, plan);
    result := Arr(rewritten);
    assert rewritten == Rewrite(Arr(items), plan).items;
  }

  method RewriteRecord(fields: seq<Field>, plan: Plan) returns (changed: bool, result: Json)
    requires DistinctKeys(fields)
    requires forall i | 0 <= i < |fields| :: Valid(fields[i].value)
    ensures changed == Changed(Obj(fields), plan)
    ensures result == Rewrite(Obj(fields), plan)
    decreases fields, 0
  {
    hide *;
    changed := false;
    var rewritten := fields;
    for i := 0 to |fields|
      invariant changed <==>
        exists j | 0 <= j < i :: ChangedMember(fields[j].key, fields[j].value, plan)
      invariant |rewritten| == |fields|
      invariant forall j | 0 <= j < i ::
        rewritten[j] == Field(fields[j].key, RewriteMember(fields[j].key, fields[j].value, plan))
      invariant forall j | i <= j < |fields| :: rewritten[j] == fields[j]
    {
      var childChanged, child := RewriteChild(fields[i].key, fields[i].value, plan);
      MemberUnchanged(fields[i].key, fields[i].value, plan);
      if childChanged {
        changed := true;
        rewritten := PutAt(fields, rewritten, i, child);
      }
    }
    var written, finished := WritePairs(fields, rewritten, plan);
    changed := changed || written;
    result := Obj(finished);
    OfFields(fields, plan);
    assert finished == Rewrite(Obj(fields), plan).fields;
  }

  /** `rewritten[key] = value` for a key of the record, whose place is known. */
  function PutAt(fields: seq<Field>, rewritten: seq<Field>, i: nat, value: Json): (r: seq<Field>)
    requires DistinctKeys(fields) && |rewritten| == |fields| && i < |fields|
    requires forall j | 0 <= j < |fields| :: rewritten[j].key == fields[j].key
    ensures r == rewritten[i := Field(fields[i].key, value)]
  {
    SameKeys(rewritten, fields, fields[i].key);
    GetAt(fields, i);
    Put(rewritten, fields[i].key, value)
  }

  method RewriteChild(key: string, v: Json, plan: Plan) returns (changed: bool, result: Json)
    requires Valid(v)
    ensures changed == ChangedMember(key, v, plan)
    ensures result == RewriteMember(key, v, plan)
    decreases v, 2
  {
    if key == "resources" {
      changed, result := RewriteSerializedResources(v, plan);
    } else {
      changed, result := RewriteValue(v, plan);
    }
  }

  /** `rewriteSerializedResources` */
  method RewriteSerializedResources(v: Json, plan: Plan) returns (changed: bool, result: Json)
    requires Valid(v)
    ensures changed == ChangedMember("resources", v, plan)
    ensures result == RewriteMember("resources", v, plan)
    decreases v, 1
  {
    if v.Arr? {
      changed, result := RewriteResources(v.items, plan);
    } else {
      changed, result := RewriteValue(v, plan);
    }
  }

  method RewriteResources(items: seq<Json>, plan: Plan) returns (changed: bool, result: Json)
    requires forall i | 0 <= i < |items| :: Valid(items[i])
    ensures changed == ChangedMember("resources", Arr(items), plan)
    ensures result == RewriteMember("resources", Arr(items), plan)
    decreases items, 1
  {
    hide *;
    changed := false;
    var rewritten: seq<Json> := [];
    for i := 0 to |items|
      invariant changed <==> exists j | 0 <= j < i :: ChangedResource(items[j], plan)
      invariant |rewritten| == i
      invariant forall j | 0 <= j < i :: rewritten[j] == RewriteResource(items[j], plan)
    {
      var resourceChanged, next := RewriteOneResource(items[i], plan);
      changed := changed || resourceChanged;
      rewritten := rewritten + [next];
    }
    OfResources(items, plan);
    result := Arr(rewritten);
    assert rewritten == RewriteMember("resources", Arr(items), plan).items;
  }

  method RewriteOneResource(resource: Json, plan: Plan) returns (changed: bool, next: Json)
    requires Valid(resource)
    ensures changed == ChangedResource(resource, plan)
    ensures next == RewriteResource(resource, plan)
    decreases resource, 1
  {
    changed, next := RewriteValue(resource, plan);
    var parsed := EncodedData(resource);
    if parsed.Some? {
      var dataChanged, data := RewriteValue(parsed.value, plan);
      if dataChanged {
        next := Obj(Put(next.fields, "data", Str(Stringify(data))));
        changed := true;
      }
    }
  }

  /** The loop over the pairs: every mapped pair writes its source and its type field. */
  method WritePairs(fields: seq<Field>, before: seq<Field>, plan: Plan)
    returns (changed: bool, rewritten: seq<Field>)
    requires DistinctKeys(fields) && |before| == |fields|
    requires forall i | 0 <= i < |fields| :: before[i].key == fields[i].key
    ensures changed == AnyMapped(fields, plan)
    ensures |rewritten| == |fields|
    ensures forall i | 0 <= i < |fields| ::
      rewritten[i] == match Written(fields, plan, fields[i].key)
                      case Some(text) => Field(fields[i].key, Str(text))
                      case None => before[i]
  {
    hide *;
    var references := ImageFieldPairs(fields, plan.from);
    changed, rewritten := false, before;
    assert references[..0] == [];
    forall i | 0 <= i < |fields| {
      NothingWritten(plan, before[i]);
    }
    for k := 0 to |references|
      invariant changed <==> exists j | 0 <= j < k :: references[j].source in plan.replacements
      invariant |rewritten| == |fields|
      invariant forall i | 0 <= i < |fields| ::
        rewritten[i] == WrittenSoFar(references[..k], plan, before[i])
    {
      forall i | 0 <= i < |fields| {
        WrittenStep(references, k, plan, before[i]);
      }
      if references[k].source in plan.replacements {
        changed := true;
        rewritten := WritePair(fields, rewritten, plan, k);
      }
    }
    assert references[..|references|] == references;
    SomeMapped(fields, plan);
    forall i | 0 <= i < |fields| {
      AllWritten(fields, plan, before[i]);
    }
  }

  method WritePair(fields: seq<Field>, before: seq<Field>, plan: Plan, k: nat)
    returns (rewritten: seq<Field>)
    requires DistinctKeys(fields) && |before| == |fields|
    requires forall i | 0 <= i < |fields| :: before[i].key == fields[i].key
    requires k < |ImageFieldPairs(fields, plan.from)|
    requires ImageFieldPairs(fields, plan.from)[k].source in plan.replacements
    ensures |rewritten| == |fields|
    ensures forall i | 0 <= i < |fields| ::
      rewritten[i] == WriteReference(ImageFieldPairs(fields, plan.from)[k], plan, before[i])
  {
    var reference := ImageFieldPairs(fields, plan.from)[k];
    PairFieldsExist(fields, plan.from, k);
    var s, t := IndexOf(fields, reference.pair.sourceKey), IndexOf(fields, reference.pair.typeKey);
    var source := plan.replacements[reference.source];
    hide *;
    rewritten := PutAt(fields, before, s, Str(source));
    rewritten := PutAt(fields, rewritten, t, Str(Tag(plan.to)));
    forall i | 0 <= i < |fields|
      ensures rewritten[i] == WriteReference(reference, plan, before[i])
    {
      WhereWritten(fields, plan, reference, before[i], i);
    }
  }
}
