// JSON documents as the configuration store compares them: two documents are equal when they hold
// the same values. Numbers are identified by value, whatever machine type the parser picked.
module JsonDocument {
  import opened Options

  datatype Json =
    | Null
    | Bool(flag: bool)
    | Number(value: real)
    | Text(text: string)
    | Array(items: seq<Json>)
    | Object(fields: Fields)

  type Fields = map<string, Json>

  const EMPTY_OBJECT: Json := Object(map[])

  function Field(fields: Fields, key: string): Option<Json> {
    if key in fields then Some(fields[key]) else None
  }

  // A lookup that never inserts: a document that is not an object has no keys.
  function Lookup(doc: Json, key: string): Option<Json> {
    if doc.Object? then Field(doc.fields, key) else None
  }

  lemma ObjectsAgree(a: Json, b: Json)
    requires a.Object? && b.Object?
    requires forall key :: Lookup(a, key) == Lookup(b, key)
    ensures a == b
  {
    forall key
      ensures key in a.fields <==> key in b.fields
      ensures key in a.fields ==> a.fields[key] == b.fields[key]
    {
      assert Lookup(a, key) == Lookup(b, key);
    }
    assert a.fields == b.fields;
  }
}
