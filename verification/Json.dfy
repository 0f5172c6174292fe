/**
 * JSON values as the client walks them. A string that `JSON.parse` accepts carries the value
 * it serialises, so a walk that descends into serialised JSON has a termination measure.
 */
module Json {
  import opened Wrappers

  /**
   * A JavaScript string, told apart by whether `JSON.parse` accepts it. `layout` is whatever
   * distinguishes two serialisations of one value: white space, escapes, number spelling.
   */
  datatype Text = Plain(chars: string) | Encoded(layout: string, value: Json)

  datatype Field = Field(key: string, value: Json)

  datatype Json =
    | Null
    | Bool(flag: bool)
    | Number(number: real)
    | Str(text: Text)
    | Arr(items: seq<Json>)
    | Obj(fields: seq<Field>)

  /** `JSON.stringify` always produces the same layout. */
  function Stringify(v: Json): Text {
    Encoded("", v)
  }

  function ParseJson(t: Text): Option<Json> {
    if t.Encoded? then Some(t.value) else None
  }

  predicate NonEmpty(t: Text) {
    t.Encoded? || t.chars != ""
  }

  predicate DistinctKeys(fields: seq<Field>) {
    forall i, j | 0 <= i < j < |fields| :: fields[i].key != fields[j].key
  }

  /** The first index with this key, or `|fields|`. */
  function IndexOf(fields: seq<Field>, key: string): (i: nat)
    ensures i <= |fields|
    ensures i < |fields| ==> fields[i].key == key
    ensures forall j | 0 <= j < i :: fields[j].key != key
  {
    if fields == [] || fields[0].key == key then 0 else 1 + IndexOf(fields[1..], key)
  }

  predicate Has(fields: seq<Field>, key: string) {
    IndexOf(fields, key) < |fields|
  }

  function Get(fields: seq<Field>, key: string): (r: Option<Json>)
    ensures r.Some? <==> Has(fields, key)
    ensures r.Some? ==> r.value == fields[IndexOf(fields, key)].value
  {
    var i := IndexOf(fields, key);
    if i < |fields| then Some(fields[i].value) else None
  }

  /** `record[key] = value`: an existing key keeps its place, a new one goes last. */
  function Put(fields: seq<Field>, key: string, value: Json): (r: seq<Field>)
    ensures |r| == if Has(fields, key) then |fields| else |fields| + 1
    ensures forall i | 0 <= i < |fields| && i != IndexOf(fields, key) :: r[i] == fields[i]
  {
    var i := IndexOf(fields, key);
    if i < |fields| then fields[i := Field(key, value)] else fields + [Field(key, value)]
  }

  /** With distinct keys a field is found exactly where it stands. */
  lemma GetAt(fields: seq<Field>, i: nat)
    requires DistinctKeys(fields) && i < |fields|
    ensures IndexOf(fields, fields[i].key) == i
    ensures Get(fields, fields[i].key) == Some(fields[i].value)
  {
    var j := IndexOf(fields, fields[i].key);
    assert j <= i;
  }

  /** Only the keys decide where a key is found. */
  lemma SameKeys(a: seq<Field>, b: seq<Field>, key: string)
    requires |a| == |b|
    requires forall i | 0 <= i < |a| :: a[i].key == b[i].key
    ensures IndexOf(a, key) == IndexOf(b, key)
  {
    var i, j := IndexOf(a, key), IndexOf(b, key);
    assert i < |a| ==> b[i].key == key;
    assert j < |b| ==> a[j].key == key;
  }

  /** Every record, at any depth and inside serialised strings, has distinct keys. */
  predicate Valid(v: Json) {
    match v
    case Arr(items) => forall i | 0 <= i < |items| :: Valid(items[i])
    case Obj(fields) =>
      DistinctKeys(fields) && forall i | 0 <= i < |fields| :: Valid(fields[i].value)
    case Str(Encoded(_, inner)) => Valid(inner)
    case _ => true
  }
}
