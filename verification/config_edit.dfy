// What the writers of an edit access do to a document: materialising a section, setting, ensuring and
// erasing one key of it.
module ConfigEdit {
  import opened Options
  import opened JsonDocument

  type Path = seq<string>

  // The value a section path leads to, if every step of it is a key of an object.
  function At(doc: Json, path: Path): Option<Json> {
    if path == [] then Some(doc)
    else if Lookup(doc, path[0]) == None then None
    else At(doc.fields[path[0]], path[1..])
  }

  lemma AtOneKey(doc: Json, key: string)
    ensures At(doc, [key]) == Lookup(doc, key)
  {
    if Lookup(doc, key).Some? { assert [key][1..] == []; }
  }

  function FieldsOf(doc: Json): Fields {
    if doc.Object? then doc.fields else map[]
  }

  function ChildSection(fields: Fields, key: string): Json {
    if key in fields && fields[key].Object? then fields[key] else EMPTY_OBJECT
  }

  // The document with every step of the path made an object.
  function Materialized(doc: Json, path: Path): Json
    decreases |path|
  {
    if path == [] then doc
    else Object(FieldsOf(doc)[path[0] := Materialized(ChildSection(FieldsOf(doc), path[0]), path[1..])])
  }

  // Whether every step of the path, the last one included, is an object already.
  predicate IsSection(doc: Json, path: Path) {
    path == [] || (Lookup(doc, path[0]).Some? && doc.fields[path[0]].Object? && IsSection(doc.fields[path[0]], path[1..]))
  }

  // The document with the value at the path replaced.
  function Replaced(doc: Json, path: Path, node: Json): Json
    requires IsSection(doc, path)
  {
    if path == [] then node
    else Object(doc.fields[path[0] := Replaced(doc.fields[path[0]], path[1..], node)])
  }

  lemma {:induction false} SectionIsAnObject(doc: Json, path: Path)
    requires IsSection(doc, path)
    ensures At(doc, path).Some?
    ensures path != [] ==> At(doc, path).value.Object?
  {
    if path != [] { SectionIsAnObject(doc.fields[path[0]], path[1..]); }
  }

  lemma {:induction false} ReplaceBySame(doc: Json, path: Path)
    requires IsSection(doc, path)
    ensures At(doc, path).Some? && Replaced(doc, path, At(doc, path).value) == doc
  {
    if path != [] { ReplaceBySame(doc.fields[path[0]], path[1..]); }
  }

  // Materialising is the identity exactly on documents that already have the section.
  lemma {:induction false} MaterializedIsIdentity(doc: Json, path: Path)
    ensures Materialized(doc, path) == doc <==> IsSection(doc, path)
    ensures IsSection(Materialized(doc, path), path)
    decreases |path|
  {
    if path != [] {
      var child := ChildSection(FieldsOf(doc), path[0]);
      MaterializedIsIdentity(child, path[1..]);
      MaterializedObject(child, path[1..]);
      if Materialized(doc, path) == doc {
        assert doc.fields[path[0]] == Materialized(child, path[1..]);
      }
    }
  }

  lemma MaterializedObject(doc: Json, path: Path)
    requires doc.Object?
    ensures Materialized(doc, path).Object?
  {
  }

  // Making one more step of the path an object does not change where materialising ends.
  lemma {:induction false} OneStepOfMaterializing(doc: Json, path: Path, i: nat)
    requires i < |path| && IsSection(doc, path[..i]) && (i == 0 ==> doc.Object?)
    requires At(doc, path[..i]).Some? && At(doc, path[..i]).value.Object?
    ensures
      var node := At(doc, path[..i]).value;
      var next := Replaced(doc, path[..i], Object(node.fields[path[i] := ChildSection(node.fields, path[i])]));
      && IsSection(next, path[..i + 1])
      && Materialized(next, path) == Materialized(doc, path)
      && (ChildSection(node.fields, path[i]) == (if path[i] in node.fields then node.fields[path[i]] else Null)
          ==> next == doc)
      && next.Object?
    decreases i
  {
    var node := At(doc, path[..i]).value;
    var next := Replaced(doc, path[..i], Object(node.fields[path[i] := ChildSection(node.fields, path[i])]));
    if i == 0 {
      assert path[..1][1..] == [];
    } else {
      assert path[..i][1..] == path[1..][..i - 1];
      assert path[..i + 1][1..] == path[1..][..i];
      OneStepOfMaterializing(doc.fields[path[0]], path[1..], i - 1);
    }
    if ChildSection(node.fields, path[i]) == (if path[i] in node.fields then node.fields[path[i]] else Null) {
      assert node.fields[path[i] := ChildSection(node.fields, path[i])] == node.fields;
      ReplaceBySame(doc, path[..i]);
    }
  }

  // Two paths of which neither leads through the other.
  predicate Diverge(p: Path, q: Path) {
    p != [] && q != [] && (p[0] != q[0] || Diverge(p[1..], q[1..]))
  }

  // Writing one key of a section leaves that value there and every diverging place as it was.
  lemma {:induction false} WriteTouchesOnePlace(doc: Json, path: Path, key: string, value: Option<Json>, q: Path)
    requires IsSection(Materialized(doc, path), path) && At(Materialized(doc, path), path).Some?
    ensures var made := Materialized(doc, path);
            var node := At(made, path).value;
            var written := Replaced(made, path, Object(WithKey(FieldsOf(node), key, value)));
            && At(written, path + [key]) == value
            && (Diverge(path + [key], q) && (path == [] ==> node.Object? || node.Null?) ==> At(written, q) == At(doc, q))
    decreases |path|
  {
    var made := Materialized(doc, path);
    var node := At(made, path).value;
    if path == [] {
      var written := Object(WithKey(FieldsOf(node), key, value));
      assert (path + [key])[1..] == [];
      assert path + [key] == [key] && At(written, [key]) == value;
      assert Diverge([key], q) ==> q[0] != key || Diverge([], q[1..]);
      if q != [] && q[0] != key && (node.Object? || node.Null?) {
        assert Lookup(written, q[0]) == Lookup(doc, q[0]);
        assert At(written, q) == At(doc, q);
      }
    } else {
      var child := ChildSection(FieldsOf(doc), path[0]);
      assert (path + [key])[1..] == path[1..] + [key];
      var rest := if q == [] then [] else q[1..];
      MaterializedIsIdentity(child, path[1..]);
      SectionIsAnObject(made.fields[path[0]], path[1..]);
      WriteTouchesOnePlace(child, path[1..], key, value, rest);
      if q != [] && q[0] == path[0] && Diverge(path[1..] + [key], rest) {
        assert rest != [];
        assert At(doc, q) == At(child, rest);
      }
    }
  }

  function WithKey(fields: Fields, key: string, value: Option<Json>): Fields {
    if value.Some? then fields[key := value.value] else fields - {key}
  }
}
