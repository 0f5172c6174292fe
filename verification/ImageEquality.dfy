/**
 * When two values are the same data: strings are compared character for character, except for
 * the serialised data of resources, which is compared as JSON.
 */
module ImageEquality {
  import opened Wrappers
  import opened Json
  import opened ImageReferences

  /** The value with the layout of every `resources[].data` forgotten. */
  function Canon(v: Json): (r: Json)
    ensures v.Obj? <==> r.Obj?
    ensures v.Str? || r.Str? ==> r == v
    ensures v.Obj? ==> |r.fields| == |v.fields|
    ensures v.Obj? ==> forall i | 0 <= i < |v.fields| :: r.fields[i].key == v.fields[i].key
    decreases v, 0
  {
    match v
    case Arr(items) => Arr(seq(|items|, i requires 0 <= i < |items| => Canon(items[i])))
    case Obj(fields) =>
      Obj(seq(|fields|, i requires 0 <= i < |fields| =>
        Field(fields[i].key, CanonMember(fields[i].key, fields[i].value))))
    case _ => v
  }

  function CanonMember(key: string, v: Json): (r: Json)
    ensures v.Str? || r.Str? ==> r == v
    decreases v, 2
  {
    if key == "resources" && v.Arr? then
      Arr(seq(|v.items|, i requires 0 <= i < |v.items| => CanonResource(v.items[i])))
    else
      Canon(v)
  }

  function CanonResource(v: Json): Json
    decreases v, 1
  {
    var around := Canon(v);
    match EncodedData(v)
    case Some(inner) => Obj(Put(around.fields, "data", Str(Stringify(Canon(inner)))))
    case None => around
  }

  predicate SameJson(a: Json, b: Json) {
    Canon(a) == Canon(b)
  }

  predicate SameMember(key: string, a: Json, b: Json) {
    CanonMember(key, a) == CanonMember(key, b)
  }

  predicate SameResource(a: Json, b: Json) {
    CanonResource(a) == CanonResource(b)
  }

  lemma SameItems(a: seq<Json>, b: seq<Json>)
    ensures SameJson(Arr(a), Arr(b))
            <==> |a| == |b| && forall i | 0 <= i < |a| :: SameJson(a[i], b[i])
  {
    var x, y := Canon(Arr(a)).items, Canon(Arr(b)).items;
    assert |x| == |a| && |y| == |b|;
    if x == y {
      forall i | 0 <= i < |a| ensures SameJson(a[i], b[i]) {
        assert x[i] == y[i];
      }
    }
  }

  lemma SameResources(a: seq<Json>, b: seq<Json>)
    ensures SameMember("resources", Arr(a), Arr(b))
            <==> |a| == |b| && forall i | 0 <= i < |a| :: SameResource(a[i], b[i])
  {
    var x, y := CanonMember("resources", Arr(a)).items, CanonMember("resources", Arr(b)).items;
    assert |x| == |a| && |y| == |b|;
    if x == y {
      forall i | 0 <= i < |a| ensures SameResource(a[i], b[i]) {
        assert x[i] == y[i];
      }
    }
  }

  lemma SameFields(a: seq<Field>, b: seq<Field>)
    ensures SameJson(Obj(a), Obj(b))
            <==> |a| == |b| && forall i | 0 <= i < |a| ::
                   a[i].key == b[i].key && SameMember(a[i].key, a[i].value, b[i].value)
  {
    var x, y := Canon(Obj(a)).fields, Canon(Obj(b)).fields;
    assert |x| == |a| && |y| == |b|;
    hide CanonMember;
    if x == y {
      forall i | 0 <= i < |a|
        ensures a[i].key == b[i].key && SameMember(a[i].key, a[i].value, b[i].value)
      {
        assert x[i] == y[i];
      }
    }
  }

  /** Two resources are the same when the records around the data are, and the data is as JSON. */
  lemma SameWithData(a: seq<Field>, b: seq<Field>, t: Text, u: Text)
    requires |a| == |b| && forall i | 0 <= i < |a| :: a[i].key == b[i].key
    requires DistinctKeys(b) && Get(b, "data") == Some(Str(u)) && Get(a, "data") == Some(Str(u))
    requires t.Encoded? && u.Encoded?
    ensures SameResource(Obj(Put(a, "data", Str(t))), Obj(b))
            <==> SameJson(Obj(a), Obj(b)) && SameJson(t.value, u.value)
  {
    hide Canon, CanonMember, CanonResource, DistinctKeys;
    var d := IndexOf(b, "data");
    SameKeys(a, b, "data");
    var updated := a[d := Field("data", Str(t))];
    SameKeys(updated, b, "data");
    CanonOfResource(updated, t, d);
    CanonOfResource(b, u, d);
    CanonButOne(a, d, Field("data", Str(t)));
    CanonOfText(a, d);
    CanonOfText(b, d);
    SameButOne(Canon(Obj(updated)).fields, Canon(Obj(b)).fields, Canon(Obj(a)).fields, d,
               Field("data", Str(Stringify(Canon(t.value)))),
               Field("data", Str(Stringify(Canon(u.value)))));
  }

  lemma CanonButOne(fields: seq<Field>, d: nat, field: Field)
    requires d < |fields|
    ensures
      var x, z := Canon(Obj(fields[d := field])).fields, Canon(Obj(fields)).fields;
      |x| == |z| == |fields| && forall i | 0 <= i < |fields| && i != d :: x[i] == z[i]
  {
    hide CanonMember;
  }

  lemma CanonOfText(fields: seq<Field>, d: nat)
    requires d < |fields| && fields[d].value.Str?
    ensures |Canon(Obj(fields)).fields| == |fields| && Canon(Obj(fields)).fields[d] == fields[d]
  {}

  lemma SameButOne<T>(x: seq<T>, y: seq<T>, z: seq<T>, d: nat, p: T, q: T)
    requires d < |x| == |y| == |z| && z[d] == y[d]
    requires forall i | 0 <= i < |x| && i != d :: x[i] == z[i]
    ensures x[d := p] == y[d := q] <==> z == y && p == q
  {
    if x[d := p] == y[d := q] {
      assert x[d := p][d] == y[d := q][d];
      forall i | 0 <= i < |z| ensures z[i] == y[i] {
        assert x[d := p][i] == y[d := q][i];
      }
    }
    if z == y && p == q {
      assert x[d := p] == y[d := q];
    }
  }

  lemma CanonOfResource(fields: seq<Field>, text: Text, d: nat)
    requires d < |fields| && d == IndexOf(fields, "data")
    requires fields[d] == Field("data", Str(text)) && text.Encoded?
    ensures |Canon(Obj(fields)).fields| == |fields|
    ensures CanonResource(Obj(fields))
            == Obj(Canon(Obj(fields)).fields[d := Field("data", Str(Stringify(Canon(text.value))))])
  {
    SameKeys(Canon(Obj(fields)).fields, fields, "data");
    assert Get(fields, "data") == Some(Str(text));
    assert EncodedData(Obj(fields)) == Some(text.value);
  }
}
