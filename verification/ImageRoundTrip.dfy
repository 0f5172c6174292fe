/**
 * Exactly when rewriting image references one way and then back gives the value again, for plans
 * that undo each other everywhere or on the sources in reach only.
 */
module ImageRoundTrip {
  import opened Wrappers
  import opened Json
  import opened ImageEquality
  import opened ImageReach
  import opened ImageReferences
  import opened ImageRewriting

  // ---------- There and back ----------

  /** `back` turns every replacement of `forth` into the source it came from. */
  predicate Undoes(forth: Plan, back: Plan) {
    && forth.from == back.to && forth.to == back.from && forth.from != forth.to
    && forall s | s in forth.replacements ::
         var u := forth.replacements[s];
         NonEmpty(u) && u in back.replacements && back.replacements[u] == s
  }

  /**
   * A pair that already had the target type before, and that the way back mistakes for a
   * rewritten one: its source is a replacement, or it shares a source field that is rewritten.
   */
  predicate Captured(fields: seq<Field>, forth: Plan, back: Plan, pair: Pair) {
    var source := Active(fields, back.from, pair);
    source.Some? && (source.value in back.replacements || SourceMapped(fields, forth, pair))
  }

  predicate CapturesHere(fields: seq<Field>, forth: Plan, back: Plan) {
    Captured(fields, forth, back, IMAGE_PAIR) || Captured(fields, forth, back, FILL_PAIR)
    || Captured(fields, forth, back, SOURCE_PAIR)
  }

  /** Some record in reach of the rewrite holds a captured pair. */
  predicate Captures(v: Json, forth: Plan, back: Plan)
    decreases v, 0
  {
    match v
    case Arr(items) => exists i | 0 <= i < |items| :: Captures(items[i], forth, back)
    case Obj(fields) =>
      CapturesHere(fields, forth, back)
      || exists i | 0 <= i < |fields| ::
           CapturesMember(fields[i].key, fields[i].value, forth, back)
    case _ => false
  }

  predicate CapturesMember(key: string, v: Json, forth: Plan, back: Plan)
    decreases v, 2
  {
    if key == "resources" && v.Arr? then
      exists i | 0 <= i < |v.items| :: CapturesResource(v.items[i], forth, back)
    else Captures(v, forth, back)
  }

  predicate CapturesResource(v: Json, forth: Plan, back: Plan)
    decreases v, 1
  {
    Captures(v, forth, back)
    || (EncodedData(v).Some? && Captures(EncodedData(v).value, forth, back))
  }

  function ThereAndBack(v: Json, forth: Plan, back: Plan): Json {
    Rewrite(Rewrite(v, forth), back)
  }

  function MemberThereAndBack(key: string, v: Json, forth: Plan, back: Plan): Json {
    RewriteMember(key, RewriteMember(key, v, forth), back)
  }

  // ---------- One record ----------

  lemma PairThereAndBack(fields: seq<Field>, forth: Plan, back: Plan, pair: Pair)
    requires Undoes(forth, back) && IsPair(pair)
    ensures
      var after := Rewrite(Obj(fields), forth).fields;
      && (Mapped(after, back, pair)
          <==> Mapped(fields, forth, pair) || Captured(fields, forth, back, pair))
      && SourceText(after, pair)
         == (if SourceMapped(fields, forth, pair)
             then Some(forth.replacements[SourceText(fields, pair).value])
             else SourceText(fields, pair))
  {
    var after := Rewrite(Obj(fields), forth).fields;
    RewrittenPair(fields, forth, pair);
    WrittenOfPair(fields, forth, pair);
    WrittenOfPair(fields, back, pair);
    WrittenOfPair(after, back, pair);
    hide Rewrite, RewriteMember, Written;
    assert Mapped(fields, forth, pair) ==> SourceMapped(fields, forth, pair);
    assert Get(after, pair.typeKey) == Some(Str(Tag(back.from)))
           <==> Mapped(fields, forth, pair)
                || Get(fields, pair.typeKey) == Some(Str(Tag(back.from)));
  }

  /** How the pairs of a record stand after the way there, when none is captured. */
  predicate PairsStand(fields: seq<Field>, after: seq<Field>, forth: Plan, back: Plan, pair: Pair) {
    var text := SourceText(fields, pair);
    && (Mapped(after, back, pair) <==> Mapped(fields, forth, pair))
    && SourceText(after, pair)
       == if SourceMapped(fields, forth, pair) && text.Some? && text.value in forth.replacements
          then Some(forth.replacements[text.value])
          else text
  }

  lemma PairKeyThereAndBack(
      fields: seq<Field>, after: seq<Field>, forth: Plan, back: Plan, pair: Pair, key: string)
    requires Undoes(forth, back) && IsPair(pair)
    requires forall p | IsPair(p) :: PairsStand(fields, after, forth, back, p)
    requires key == pair.typeKey || key == pair.sourceKey
    ensures
      && (Written(after, back, key).Some? <==> Written(fields, forth, key).Some?)
      && (Written(after, back, key).Some?
          ==> Get(fields, key) == Some(Str(Written(after, back, key).value)))
  {
    WrittenOfPair(fields, forth, pair);
    WrittenOfPair(after, back, pair);
    assert PairsStand(fields, after, forth, back, IMAGE_PAIR);
    assert PairsStand(fields, after, forth, back, FILL_PAIR);
    assert PairsStand(fields, after, forth, back, SOURCE_PAIR);
    assert SourceMapped(after, back, pair) <==> SourceMapped(fields, forth, pair);
    hide Written;
  }

  lemma OtherKey(fields: seq<Field>, plan: Plan, key: string)
    requires forall p | IsPair(p) :: key != p.typeKey && key != p.sourceKey
    ensures Written(fields, plan, key).None?
  {
    assert IsPair(IMAGE_PAIR) && IsPair(FILL_PAIR) && IsPair(SOURCE_PAIR);
  }

  /** Without capture the way back writes a key exactly when the way there did. */
  lemma KeyThereAndBack(fields: seq<Field>, forth: Plan, back: Plan, key: string)
    requires Undoes(forth, back) && !CapturesHere(fields, forth, back)
    ensures
      var after := Rewrite(Obj(fields), forth).fields;
      && (Written(after, back, key).Some? <==> Written(fields, forth, key).Some?)
      && (Written(after, back, key).Some?
          ==> Get(fields, key) == Some(Str(Written(after, back, key).value)))
  {
    var after := Rewrite(Obj(fields), forth).fields;
    hide Rewrite, Written, Mapped, SourceMapped, Captured;
    forall p | IsPair(p) ensures PairsStand(fields, after, forth, back, p) {
      PairThereAndBack(fields, forth, back, p);
    }
    if pair :| IsPair(pair) && (key == pair.typeKey || key == pair.sourceKey) {
      PairKeyThereAndBack(fields, after, forth, back, pair, key);
    } else {
      OtherKey(fields, forth, key);
      OtherKey(after, back, key);
    }
  }

  lemma FieldThereAndBack(fields: seq<Field>, forth: Plan, back: Plan, i: nat)
    requires Undoes(forth, back) && DistinctKeys(fields) && i < |fields|
    requires !CapturesHere(fields, forth, back)
    ensures
      var result := ThereAndBack(Obj(fields), forth, back).fields[i].value;
      var key := fields[i].key;
      result == fields[i].value || result == MemberThereAndBack(key, fields[i].value, forth, back)
    ensures
      Written(fields, forth, fields[i].key).Some?
      ==> ThereAndBack(Obj(fields), forth, back).fields[i].value == fields[i].value
          && fields[i].value.Str?
    ensures
      Written(fields, forth, fields[i].key).None?
      ==> ThereAndBack(Obj(fields), forth, back).fields[i].value
          == MemberThereAndBack(fields[i].key, fields[i].value, forth, back)
  {
    var key := fields[i].key;
    var after := Rewrite(Obj(fields), forth).fields;
    KeyThereAndBack(fields, forth, back, key);
    OfFields(fields, forth);
    OfFields(after, back);
    GetAt(fields, i);
    hide Written, Rewrite, RewriteMember;
  }

  /** A captured pair ends with the other type tag. */
  lemma CapturedPairDiffers(fields: seq<Field>, forth: Plan, back: Plan, pair: Pair)
    requires Undoes(forth, back) && IsPair(pair) && Captured(fields, forth, back, pair)
    ensures !SameJson(ThereAndBack(Obj(fields), forth, back), Obj(fields))
  {
    var after := Rewrite(Obj(fields), forth).fields;
    var result := Rewrite(Obj(after), back).fields;
    PairThereAndBack(fields, forth, back, pair);
    WrittenOfPair(after, back, pair);
    OfFields(fields, forth);
    OfFields(after, back);
    SameKeys(after, fields, pair.typeKey);
    var i := IndexOf(fields, pair.typeKey);
    assert result[i].value == Str(Tag(back.to));
    assert fields[i].value == Str(Tag(back.from));
    assert !SameMember(fields[i].key, result[i].value, fields[i].value);
    hide Rewrite, RewriteMember, Written, Canon;
    SameFields(result, fields);
  }

  lemma RecordThereAndBack(fields: seq<Field>, forth: Plan, back: Plan)
    requires Undoes(forth, back) && DistinctKeys(fields)
    requires forall i | 0 <= i < |fields| ::
      SameMember(fields[i].key,
                 MemberThereAndBack(fields[i].key, fields[i].value, forth, back), fields[i].value)
      <==> !CapturesMember(fields[i].key, fields[i].value, forth, back)
    ensures SameJson(ThereAndBack(Obj(fields), forth, back), Obj(fields))
            <==> !Captures(Obj(fields), forth, back)
  {
    if CapturesHere(fields, forth, back) {
      var pair :| IsPair(pair) && Captured(fields, forth, back, pair);
      CapturedPairDiffers(fields, forth, back, pair);
    } else {
      var result := ThereAndBack(Obj(fields), forth, back);
      OfFields(fields, forth);
      OfFields(Rewrite(Obj(fields), forth).fields, back);
      forall i | 0 <= i < |fields|
        ensures SameMember(fields[i].key, result.fields[i].value, fields[i].value)
                <==> !CapturesMember(fields[i].key, fields[i].value, forth, back)
      {
        FieldThereAndBack(fields, forth, back, i);
      }
      hide Rewrite, RewriteMember;
      SameFields(result.fields, fields);
    }
  }

  // ---------- Resources and their data ----------

  lemma PutTwice(fields: seq<Field>, key: string, a: Json, b: Json)
    requires Has(fields, key)
    ensures Put(Put(fields, key, a), key, b) == Put(fields, key, b)
  {
    SameKeys(Put(fields, key, a), fields, key);
  }

  lemma KeysAfter(fields: seq<Field>, plan: Plan)
    requires DistinctKeys(fields)
    ensures DistinctKeys(Rewrite(Obj(fields), plan).fields)
    ensures Has(Rewrite(Obj(fields), plan).fields, "data") <==> Has(fields, "data")
  {
    SameKeys(Rewrite(Obj(fields), plan).fields, fields, "data");
  }

  /** The record around the data and the data itself make their ways apart. */
  lemma ResourceThereAndBack(v: Json, forth: Plan, back: Plan) returns (data: Text)
    requires Valid(v) && EncodedData(v).Some?
    ensures RewriteResource(RewriteResource(v, forth), back)
            == Obj(Put(ThereAndBack(v, forth, back).fields, "data", Str(data)))
    ensures ParseJson(data) == Some(ThereAndBack(EncodedData(v).value, forth, back))
    ensures Get(ThereAndBack(v, forth, back).fields, "data") == Get(v.fields, "data")
  {
    var inner, next := EncodedData(v).value, Rewrite(v, forth);
    assert DistinctKeys(v.fields);
    KeysAfter(v.fields, forth);
    KeysAfter(next.fields, back);
    RewrittenResource(v, forth);
    DataStays(v.fields, forth);
    DataStays(next.fields, back);
    var text :| RewriteResource(v, forth) == Obj(Put(next.fields, "data", Str(text)))
                && ParseJson(text) == Some(Rewrite(inner, forth));
    hide *;
    data := RewrittenAround(next, text, Rewrite(inner, forth), back);
  }

  lemma DataStays(fields: seq<Field>, plan: Plan)
    requires Has(fields, "data") && Get(fields, "data").value.Str?
    ensures Get(Rewrite(Obj(fields), plan).fields, "data") == Get(fields, "data")
  {
    RewrittenKey(fields, plan, "data");
    MemberKeepsStrings("data", Get(fields, "data").value, plan);
  }

  lemma RewrittenAround(v: Json, text: Text, inner: Json, plan: Plan) returns (data: Text)
    requires v.Obj? && DistinctKeys(v.fields) && ParseJson(text) == Some(inner)
    requires Has(v.fields, "data") && Get(v.fields, "data").value.Str?
    ensures RewriteResource(Obj(Put(v.fields, "data", Str(text))), plan)
            == Obj(Put(Rewrite(v, plan).fields, "data", Str(data)))
    ensures ParseJson(data) == Some(Rewrite(inner, plan))
  {
    var middle := Obj(Put(v.fields, "data", Str(text)));
    GetAfterPut(v.fields, text);
    RewrittenResource(middle, plan);
    PutData(v.fields, text, plan);
    KeysAfter(v.fields, plan);
    var final :| RewriteResource(middle, plan)
                 == Obj(Put(Rewrite(middle, plan).fields, "data", Str(final)))
                 && ParseJson(final) == Some(Rewrite(EncodedData(middle).value, plan));
    PutTwice(Rewrite(v, plan).fields, "data", Str(text), Str(final));
    return final;
  }

  lemma KeysThereAndBack(fields: seq<Field>, forth: Plan, back: Plan)
    ensures
      var result := ThereAndBack(Obj(fields), forth, back);
      result.Obj? && |result.fields| == |fields|
      && forall i | 0 <= i < |fields| :: result.fields[i].key == fields[i].key
  {
    OfFields(fields, forth);
    OfFields(Rewrite(Obj(fields), forth).fields, back);
  }

  lemma {:induction false} ResourceRoundTrip(v: Json, forth: Plan, back: Plan)
    requires Valid(v) && Undoes(forth, back)
    ensures SameResource(RewriteResource(RewriteResource(v, forth), back), v)
            <==> !CapturesResource(v, forth, back)
    decreases v, 1
  {
    RoundTrip(v, forth, back);
    if EncodedData(v).Some? {
      var inner := EncodedData(v).value;
      RoundTrip(inner, forth, back);
      var data := ResourceThereAndBack(v, forth, back);
      KeysThereAndBack(v.fields, forth, back);
      var around := ThereAndBack(v, forth, back).fields;
      var before := Get(v.fields, "data").value.text;
      hide Rewrite, RewriteResource, Captures, Canon, CanonResource;
      SameWithData(around, v.fields, data, before);
    } else {
      DataOfRewritten(v, forth);
      DataOfRewritten(Rewrite(v, forth), back);
      hide Rewrite, Captures, Canon;
    }
  }

  // ---------- The theorem ----------

  /**
   * Rewriting and rewriting back gives an equal JSON value exactly when no pair is captured, at
   * any depth of records, arrays and serialised data.
   */
  lemma {:induction false} RoundTrip(v: Json, forth: Plan, back: Plan)
    requires Valid(v) && Undoes(forth, back)
    ensures SameJson(ThereAndBack(v, forth, back), v) <==> !Captures(v, forth, back)
    decreases v, 0
  {
    hide Captures, CapturesMember, SameJson, SameMember, ThereAndBack, MemberThereAndBack, Undoes;
    match v
    case Arr(items) =>
      forall i | 0 <= i < |items|
        ensures SameJson(ThereAndBack(items[i], forth, back), items[i]) <==> !Captures(items[i], forth, back)
      {
        RoundTrip(items[i], forth, back);
      }
      ItemsThereAndBack(items, forth, back);
    case Obj(fields) =>
      forall i | 0 <= i < |fields|
        ensures SameMember(fields[i].key,
                           MemberThereAndBack(fields[i].key, fields[i].value, forth, back),
                           fields[i].value)
                <==> !CapturesMember(fields[i].key, fields[i].value, forth, back)
      {
        MemberRoundTrip(fields[i].key, fields[i].value, forth, back);
      }
      RecordThereAndBack(fields, forth, back);
    case _ => AtomThereAndBack(v, forth, back);
  }

  lemma ItemsThereAndBack(items: seq<Json>, forth: Plan, back: Plan)
    requires forall i | 0 <= i < |items| ::
      SameJson(ThereAndBack(items[i], forth, back), items[i]) <==> !Captures(items[i], forth, back)
    ensures SameJson(ThereAndBack(Arr(items), forth, back), Arr(items))
            <==> !Captures(Arr(items), forth, back)
  {
    hide Rewrite, SameJson;
    var middle := Rewrite(Arr(items), forth).items;
    OfItems(items, forth);
    OfItems(middle, back);
    SameItems(Rewrite(Arr(middle), back).items, items);
  }

  lemma AtomThereAndBack(v: Json, forth: Plan, back: Plan)
    requires !v.Arr? && !v.Obj?
    ensures SameJson(ThereAndBack(v, forth, back), v) && !Captures(v, forth, back)
  {}

  lemma {:induction false} MemberRoundTrip(key: string, v: Json, forth: Plan, back: Plan)
    requires Valid(v) && Undoes(forth, back)
    ensures SameMember(key, MemberThereAndBack(key, v, forth, back), v)
            <==> !CapturesMember(key, v, forth, back)
    decreases v, 2
  {
    hide Canon, CanonResource, Rewrite, RewriteResource, Captures, CapturesResource;
    if key == "resources" && v.Arr? {
      var middle := RewriteMember(key, v, forth).items;
      OfResources(v.items, forth);
      OfResources(middle, back);
      var result := RewriteMember(key, Arr(middle), back).items;
      forall i | 0 <= i < |v.items|
        ensures SameResource(result[i], v.items[i]) <==> !CapturesResource(v.items[i], forth, back)
      {
        ResourceRoundTrip(v.items[i], forth, back);
      }
      SameResources(result, v.items);
    } else {
      RoundTrip(v, forth, back);
    }
  }

  // ---------- When the new type was not in use ----------

  /** A tree in which the rewrite reaches no reference of the new type has no captured record. */
  lemma {:induction false} UnusedNotCaptured(v: Json, forth: Plan, back: Plan)
    requires Reached(v, back.from) == {}
    ensures !Captures(v, forth, back)
    decreases v, 0
  {
    match v
    case Arr(items) =>
      forall i | 0 <= i < |items| ensures !Captures(items[i], forth, back) {
        assert Reached(items[i], back.from) <= Reached(v, back.from);
        UnusedNotCaptured(items[i], forth, back);
      }
    case Obj(fields) =>
      forall i | 0 <= i < |fields|
        ensures !CapturesMember(fields[i].key, fields[i].value, forth, back)
      {
        assert ReachedMember(fields[i].key, fields[i].value, back.from) <= Reached(v, back.from);
        UnusedMember(fields[i].key, fields[i].value, forth, back);
      }
      forall pair | IsPair(pair) ensures !Captured(fields, forth, back, pair) {
        assert AsSet(Active(fields, back.from, pair)) <= Reached(v, back.from);
      }
      assert IsPair(IMAGE_PAIR) && IsPair(FILL_PAIR) && IsPair(SOURCE_PAIR);
      hide Reached, ReachedMember, Captured, CapturesMember;
    case _ =>
  }

  lemma {:induction false} UnusedMember(key: string, v: Json, forth: Plan, back: Plan)
    requires ReachedMember(key, v, back.from) == {}
    ensures !CapturesMember(key, v, forth, back)
    decreases v, 2
  {
    if key == "resources" && v.Arr? {
      forall i | 0 <= i < |v.items| ensures !CapturesResource(v.items[i], forth, back) {
        assert ReachedResource(v.items[i], back.from) <= ReachedMember(key, v, back.from);
        UnusedNotCaptured(v.items[i], forth, back);
        if EncodedData(v.items[i]).Some? {
          UnusedNotCaptured(EncodedData(v.items[i]).value, forth, back);
        }
      }
    } else {
      UnusedNotCaptured(v, forth, back);
    }
  }

  /** With no reference of the new type in reach, there and back is the identity. */
  lemma RoundTripWhenUnused(v: Json, forth: Plan, back: Plan)
    requires Valid(v) && Undoes(forth, back)
    requires Reached(v, forth.to) == {}
    ensures SameJson(ThereAndBack(v, forth, back), v)
  {
    UnusedNotCaptured(v, forth, back);
    RoundTrip(v, forth, back);
  }

  // ---------- Plans with more in them than the tree needs ----------

  lemma {:induction false} CapturesByReach(v: Json, a: Plan, b: Plan, back: Plan)
    requires Agree(Reached(v, a.from), a, b)
    ensures Captures(v, a, back) == Captures(v, b, back)
    decreases v, 0
  {
    match v
    case Arr(items) =>
      hide Reached;
      forall i | 0 <= i < |items| ensures Captures(items[i], a, back) == Captures(items[i], b, back) {
        ReachOfItem(items, a.from, i);
        CapturesByReach(items[i], a, b, back);
      }
    case Obj(fields) =>
      hide Reached, ReachedMember, CapturesMember, CapturesHere;
      forall i | 0 <= i < |fields|
        ensures CapturesMember(fields[i].key, fields[i].value, a, back)
                == CapturesMember(fields[i].key, fields[i].value, b, back)
      {
        ReachOfField(fields, a.from, i);
        CapturesMemberByReach(fields[i].key, fields[i].value, a, b, back);
      }
      CapturesHereByReach(fields, a, b, back);
    case _ =>
  }

  lemma ReachOfItem(items: seq<Json>, from: SourceType, i: nat)
    requires i < |items|
    ensures Reached(items[i], from) <= Reached(Arr(items), from)
  {}

  lemma ReachOfField(fields: seq<Field>, from: SourceType, i: nat)
    requires i < |fields|
    ensures ReachedMember(fields[i].key, fields[i].value, from) <= Reached(Obj(fields), from)
  {
    hide ReachedMember, Declared;
  }

  lemma CapturesHereByReach(fields: seq<Field>, a: Plan, b: Plan, back: Plan)
    requires Agree(Reached(Obj(fields), a.from), a, b)
    ensures CapturesHere(fields, a, back) == CapturesHere(fields, b, back)
  {
    hide ReachedMember, Declared, Active, Mapped;
    PairsAgree(fields, a, b);
    assert IsPair(IMAGE_PAIR) && IsPair(FILL_PAIR) && IsPair(SOURCE_PAIR);
  }

  lemma {:induction false} CapturesMemberByReach(key: string, v: Json, a: Plan, b: Plan, back: Plan)
    requires Agree(ReachedMember(key, v, a.from), a, b)
    ensures CapturesMember(key, v, a, back) == CapturesMember(key, v, b, back)
    decreases v, 2
  {
    if key == "resources" && v.Arr? {
      forall i | 0 <= i < |v.items|
        ensures CapturesResource(v.items[i], a, back) == CapturesResource(v.items[i], b, back)
      {
        assert ReachedResource(v.items[i], a.from) <= ReachedMember(key, v, a.from);
        CapturesByReach(v.items[i], a, b, back);
        if EncodedData(v.items[i]).Some? {
          CapturesByReach(EncodedData(v.items[i]).value, a, b, back);
        }
      }
    } else {
      CapturesByReach(v, a, b, back);
    }
  }

  /** The part of a plan that matters for a tree. */
  function Restricted(plan: Plan, sources: set<Text>): Plan {
    plan.(replacements := map s | s in plan.replacements && s in sources :: plan.replacements[s])
  }

  /** As `RoundTrip`, where the way back has to undo the sources in reach only. */
  lemma RoundTripInReach(v: Json, forth: Plan, back: Plan)
    requires Valid(v) && Undoes(Restricted(forth, Reached(v, forth.from)), back)
    ensures SameJson(ThereAndBack(v, forth, back), v) <==> !Captures(v, forth, back)
  {
    hide Rewrite, Captures, Reached, Canon;
    var needed := Restricted(forth, Reached(v, forth.from));
    assert Agree(Reached(v, forth.from), forth, needed);
    RewriteByReach(v, forth, needed);
    CapturesByReach(v, forth, needed, back);
    RoundTrip(v, needed, back);
  }

  // ---------- Equal data has equal references ----------

  lemma ActiveOfCanon(fields: seq<Field>, from: SourceType)
    ensures Declared(Canon(Obj(fields)).fields, from) == Declared(fields, from)
  {
    var after := Canon(Obj(fields)).fields;
    forall pair ensures Active(after, from, pair) == Active(fields, from, pair) {
      KeyOfCanon(fields, pair.typeKey);
      KeyOfCanon(fields, pair.sourceKey);
      hide Canon, Get;
    }
    hide Canon, Active;
  }

  /** A member that is a string stays, and no other becomes one. */
  lemma KeyOfCanon(fields: seq<Field>, key: string)
    ensures
      var after := Canon(Obj(fields)).fields;
      && (Get(after, key).Some? <==> Get(fields, key).Some?)
      && (Get(after, key).Some? && (Get(after, key).value.Str? || Get(fields, key).value.Str?)
          ==> Get(after, key) == Get(fields, key))
  {
    SameKeys(Canon(Obj(fields)).fields, fields, key);
    hide CanonMember, IndexOf;
  }

  lemma {:induction false} ReachedOfCanon(v: Json, from: SourceType)
    requires Valid(v)
    ensures Reached(Canon(v), from) == Reached(v, from)
    decreases v, 0
  {
    match v
    case Arr(items) =>
      forall i | 0 <= i < |items| ensures Reached(Canon(items[i]), from) == Reached(items[i], from) {
        ReachedOfCanon(items[i], from);
      }
      var after := Canon(v).items;
      assert |after| == |items| && forall i | 0 <= i < |items| :: after[i] == Canon(items[i]);
    case Obj(fields) =>
      var after := Canon(v).fields;
      assert |after| == |fields|;
      forall i | 0 <= i < |fields|
        ensures after[i] == Field(fields[i].key, CanonMember(fields[i].key, fields[i].value))
        ensures ReachedMember(after[i].key, after[i].value, from)
                == ReachedMember(fields[i].key, fields[i].value, from)
      {
        ReachedOfCanonMember(fields[i].key, fields[i].value, from);
      }
      ActiveOfCanon(fields, from);
      hide ReachedMember, Declared, CanonMember, Canon, Reached;
      SameReachOfFields(after, fields, from);
    case _ =>
  }

  lemma {:induction false} ReachedOfCanonMember(key: string, v: Json, from: SourceType)
    requires Valid(v)
    ensures ReachedMember(key, CanonMember(key, v), from) == ReachedMember(key, v, from)
    decreases v, 2
  {
    if key == "resources" && v.Arr? {
      forall i | 0 <= i < |v.items|
        ensures ReachedResource(CanonResource(v.items[i]), from) == ReachedResource(v.items[i], from)
      {
        ReachedOfCanonResource(v.items[i], from);
      }
      var after := CanonMember(key, v).items;
      assert |after| == |v.items| && forall i | 0 <= i < |after| :: after[i] == CanonResource(v.items[i]);
      hide ReachedResource, CanonResource;
    } else {
      ReachedOfCanon(v, from);
      CanonKeepsArrays(v);
    }
  }

  lemma CanonKeepsArrays(v: Json)
    ensures Canon(v).Arr? <==> v.Arr?
  {
  }

  lemma {:induction false} ReachedOfCanonResource(v: Json, from: SourceType)
    requires Valid(v)
    ensures ReachedResource(CanonResource(v), from) == ReachedResource(v, from)
    decreases v, 1
  {
    ReachedOfCanon(v, from);
    DataOfCanon(v);
    if EncodedData(v).Some? {
      ReachedOfCanon(EncodedData(v).value, from);
      ReachedWithData(Canon(v), Stringify(Canon(EncodedData(v).value)), from);
    }
    hide Reached, Canon, EncodedData;
  }

  lemma DataOfCanon(v: Json)
    ensures EncodedData(Canon(v)) == EncodedData(v)
    ensures EncodedData(v).Some? ==>
              && Canon(v).Obj? && (Valid(v) ==> DistinctKeys(Canon(v).fields))
              && Has(Canon(v).fields, "data") && Get(Canon(v).fields, "data").value.Str?
  {
    if v.Obj? {
      SameKeys(Canon(v).fields, v.fields, "data");
    }
  }

  /** Values that are the same data have the same references in reach. */
  lemma SameReach(a: Json, b: Json, from: SourceType)
    requires Valid(a) && Valid(b) && SameJson(a, b)
    ensures Reached(a, from) == Reached(b, from)
  {
    ReachedOfCanon(a, from);
    ReachedOfCanon(b, from);
    hide Reached, Canon;
  }

  /** One source field shared by an old and a new reference: the way back rewrites both. */
  lemma SharedSourceIsCaptured()
    ensures
      var v := Obj([Field("source", Str(Plain("data:a"))),
                    Field("imageSourceType", Str(Tag(Base64))),
                    Field("sourceType", Str(Tag(Uuid)))]);
      var forth := Plan(Base64, Uuid, map[Plain("data:a") := Plain("file-1")]);
      var back := Plan(Uuid, Base64, map[Plain("file-1") := Plain("data:a")]);
      Valid(v) && Undoes(forth, back) && !SameJson(ThereAndBack(v, forth, back), v)
  {
    hide Rewrite, Canon, SameJson, ThereAndBack, Captured, Valid;
    var fields := [Field("source", Str(Plain("data:a"))),
                   Field("imageSourceType", Str(Tag(Base64))),
                   Field("sourceType", Str(Tag(Uuid)))];
    var forth := Plan(Base64, Uuid, map[Plain("data:a") := Plain("file-1")]);
    var back := Plan(Uuid, Base64, map[Plain("file-1") := Plain("data:a")]);
    SharedSourceIs(fields, forth, back);
    RoundTrip(Obj(fields), forth, back);
  }

  lemma SharedSourceIs(fields: seq<Field>, forth: Plan, back: Plan)
    requires fields == [Field("source", Str(Plain("data:a"))),
                        Field("imageSourceType", Str(Tag(Base64))),
                        Field("sourceType", Str(Tag(Uuid)))]
    requires forth == Plan(Base64, Uuid, map[Plain("data:a") := Plain("file-1")])
    requires back.from == Uuid
    ensures Valid(Obj(fields)) && Captured(fields, forth, back, SOURCE_PAIR)
  {
    GetAt(fields, 0);
    GetAt(fields, 1);
    GetAt(fields, 2);
    assert Mapped(fields, forth, IMAGE_PAIR);
    assert Valid(fields[0].value) && Valid(fields[1].value) && Valid(fields[2].value);
  }
}
