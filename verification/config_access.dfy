// An edit access: it owns the document mutex while it lives and reports, through `changed`, whether
// its writers altered the document.
module ConfigAccess {
  import opened Options
  import opened JsonDocument
  import opened ConfigEdit
  import opened ConfigValues
  import opened ConfigManagerModel

  // `Refused` is the type error of indexing a document that is neither an object nor null.
  datatype Outcome = Wrote | Same | Refused

  class EditAccess {
    const manager: ConfigManager
    var changed: bool

    // An access that reports no change leaves the document it started with.
    ghost predicate Valid()
      reads this, manager
    {
      manager.Valid() && manager.held && (!changed ==> manager.conf == manager.settled)
    }

    constructor (manager: ConfigManager)
      requires manager.Valid() && manager.held && manager.conf == manager.settled
      ensures Valid() && this.manager == manager && !changed
    {
      this.manager := manager;
      changed := false;
    }

    method Close()
      requires Valid()
      modifies manager
      ensures manager.Valid() && !manager.held && manager.conf == old(manager.conf)
      ensures manager.Abs() == if changed then Edited(old(manager.Abs()), manager.conf) else old(manager.Abs())
    {
      manager.Release(changed);
    }

    method Materialize(path: Path)
      requires Valid()
      modifies this, manager`conf
      ensures Valid()
      ensures manager.conf == Materialized(old(manager.conf), path)
      ensures changed <==> old(changed) || manager.conf != old(manager.conf)
    {
      ghost var doc := manager.conf;
      if path == [] { return; }
      if !manager.conf.Object? {
        // Indexing null turns it into an object, which the missing child below reports.
        if !manager.conf.Null? { changed := true; }
        manager.conf := EMPTY_OBJECT;
      }
      assert path[..0] == [];
      var i := 0;
      var touched := false;
      while i < |path|
        invariant 0 <= i <= |path|
        invariant manager.conf.Object? && IsSection(manager.conf, path[..i])
        invariant Materialized(manager.conf, path) == Materialized(doc, path)
        invariant touched ==> changed
        invariant changed ==> old(changed) || touched || (!doc.Object? && !doc.Null?)
        invariant old(changed) ==> changed
        invariant !doc.Object? && !doc.Null? ==> changed
        invariant !touched ==> manager.conf == if doc.Object? then doc else EMPTY_OBJECT
        invariant touched ==> !IsSection(doc, path)
        invariant !doc.Object? && i > 0 ==> touched
      {
        SectionIsAnObject(manager.conf, path[..i]);
        OneStepOfMaterializing(manager.conf, path, i);
        MaterializedIsIdentity(doc, path);
        var node := At(manager.conf, path[..i]).value;
        var child := if path[i] in node.fields then node.fields[path[i]] else Null;
        if !child.Object? {
          StepMissing(manager.conf, path, i);
          MaterializedIsIdentity(manager.conf, path);
          changed, touched := true, true;
        }
        manager.conf := Replaced(manager.conf, path[..i], Object(node.fields[path[i] := ChildSection(node.fields, path[i])]));
        i := i + 1;
      }
      assert path[..i] == path;
      MaterializedIsIdentity(manager.conf, path);
      MaterializedIsIdentity(doc, path);
    }

    // Setting a value the section already holds is not a change.
    method Set(path: Path, key: string, value: Json) returns (outcome: Outcome)
      requires Valid()
      modifies this, manager`conf
      ensures Valid()
      ensures outcome.Refused? <==> path == [] && !old(manager.conf).Object? && !old(manager.conf).Null?
      ensures outcome != Wrote ==> manager.conf == old(manager.conf)
      ensures outcome == Same <==> old(manager.conf) == manager.conf && !outcome.Refused?
      ensures !outcome.Refused? ==> At(manager.conf, path + [key]) == Some(value)
      ensures !outcome.Refused? ==> Elsewhere(old(manager.conf), manager.conf, path + [key])
      ensures changed <==> old(changed) || manager.conf != old(manager.conf)
    {
      ghost var doc := manager.conf;
      ghost var was := changed;
      Materialize(path);
      MaterializedIsIdentity(doc, path);
      SectionIsAnObject(manager.conf, path);
      ghost var made := manager.conf;
      var node := At(manager.conf, path).value;
      if !node.Object? && !node.Null? { return Refused; }
      var fields := FieldsOf(node);
      WroteOneKey(doc, path, key, Some(value));
      if key in fields && fields[key] == value {
        outcome := Same;
        assert Object(WithKey(fields, key, Some(value))) == node by { assert fields[key := value] == fields; }
        ReplaceBySame(manager.conf, path);
        KeyPresent(doc, path, key);
      } else {
        outcome := Wrote;
        manager.conf := Replaced(manager.conf, path, Object(fields[key := value]));
        changed := true;
        WrittenDiffers(doc, path, key, value);
      }
    }

    // Leaves a value alone that may stand in for the default; otherwise installs the default. `held` and
    // `defHeld` say how the stored value and the default are held if they are numbers, which comparing
    // documents does not: a float is replaced by an equal integer, and that counts as a change.
    method Ensure(path: Path, key: string, def: Json, defHeld: Held, wanted: Wanted, held: Held) returns (outcome: Outcome)
      requires Valid() && IsDefault(def, defHeld, wanted)
      modifies this, manager`conf
      ensures Valid()
      ensures outcome.Refused? <==> path == [] && !old(manager.conf).Object? && !old(manager.conf).Null?
      ensures outcome != Wrote ==> manager.conf == old(manager.conf)
      ensures outcome == Same <==>
              At(old(manager.conf), path + [key]).Some?
              && Accepts(At(old(manager.conf), path + [key]).value, held, def, defHeld, wanted)
      ensures outcome == Wrote ==> At(manager.conf, path + [key]) == Some(def)
      ensures !outcome.Refused? ==> Elsewhere(old(manager.conf), manager.conf, path + [key])
      ensures changed <==> old(changed) || outcome == Wrote
      ensures outcome == Wrote && manager.conf == old(manager.conf) ==> held.Floating? && !defHeld.Floating? && def.Number?
    {
      ghost var doc := manager.conf;
      Materialize(path);
      MaterializedIsIdentity(doc, path);
      SectionIsAnObject(manager.conf, path);
      var node := At(manager.conf, path).value;
      AtExtends(doc, path, key);
      if !node.Object? && !node.Null? { return Refused; }
      var fields := FieldsOf(node);
      WroteOneKey(doc, path, key, Some(def));
      if key in fields && Accepts(fields[key], held, def, defHeld, wanted) {
        outcome := Same;
        KeyPresent(doc, path, key);
      } else {
        outcome := Wrote;
        manager.conf := Replaced(manager.conf, path, Object(fields[key := def]));
        changed := true;
        if key in fields && fields[key] == def {
          EqualButRepaired(held, def, defHeld, wanted);
        } else {
          WrittenDiffers(doc, path, key, def);
        }
        if At(doc, path + [key]).Some? { PresentInMaterialized(doc, path, key); }
      }
    }

    // Erasing never creates the section it erases from.
    method Erase(path: Path, key: string) returns (outcome: Outcome)
      requires Valid()
      modifies this, manager`conf
      ensures Valid()
      ensures outcome == if At(old(manager.conf), path + [key]).Some? then Wrote else Same
      ensures outcome == Same ==> manager.conf == old(manager.conf)
      ensures At(manager.conf, path + [key]) == None
      ensures Elsewhere(old(manager.conf), manager.conf, path + [key])
      ensures changed <==> old(changed) || manager.conf != old(manager.conf)
    {
      ghost var doc := manager.conf;
      var node := At(manager.conf, path);
      AtExtends(doc, path, key);
      outcome := Same;
      if node.Some? && node.value.Object? && key in node.value.fields {
        outcome := Wrote;
        PathToObject(doc, path);
        MaterializedIsIdentity(doc, path);
        WroteOneKey(doc, path, key, None);
        manager.conf := Replaced(manager.conf, path, Object(node.value.fields - {key}));
        changed := true;
      }
    }

    method Reset(doc: Json) returns (outcome: Outcome)
      requires Valid()
      modifies this, manager`conf
      ensures Valid() && manager.conf == doc
      ensures outcome == if old(manager.conf) == doc then Same else Wrote
      ensures changed <==> old(changed) || manager.conf != old(manager.conf)
    {
      outcome := Same;
      if manager.conf != doc {
        manager.conf := doc;
        outcome := Wrote;
        changed := true;
      }
    }
  }

  // Every place that diverges from the path holds what it held before.
  ghost predicate Elsewhere(before: Json, after: Json, path: Path) {
    forall q :: Diverge(path, q) ==> At(after, q) == At(before, q)
  }

  lemma WroteOneKey(doc: Json, path: Path, key: string, value: Option<Json>)
    requires IsSection(Materialized(doc, path), path) && At(Materialized(doc, path), path).Some?
    requires path == [] ==> doc.Object? || doc.Null?
    ensures var made := Materialized(doc, path);
            var written := Replaced(made, path, Object(WithKey(FieldsOf(At(made, path).value), key, value)));
            && At(written, path + [key]) == value
            && Elsewhere(doc, written, path + [key])
  {
    WriteTouchesOnePlace(doc, path, key, value, []);
    forall q | Diverge(path + [key], q)
      ensures
        var made := Materialized(doc, path);
        var written := Replaced(made, path, Object(WithKey(FieldsOf(At(made, path).value), key, value)));
        At(written, q) == At(doc, q)
    {
      WriteTouchesOnePlace(doc, path, key, value, q);
    }
  }

  lemma {:induction false} AtExtends(doc: Json, path: Path, key: string)
    ensures At(doc, path + [key]) == if At(doc, path).Some? then Lookup(At(doc, path).value, key) else None
  {
    if path == [] {
      assert path + [key] == [key];
      AtOneKey(doc, key);
    } else {
      assert (path + [key])[1..] == path[1..] + [key];
      if Lookup(doc, path[0]).Some? { AtExtends(doc.fields[path[0]], path[1..], key); }
    }
  }

  lemma {:induction false} PathToObject(doc: Json, path: Path)
    requires At(doc, path).Some? && At(doc, path).value.Object?
    ensures IsSection(doc, path)
  {
    if path != [] { PathToObject(doc.fields[path[0]], path[1..]); }
  }

  // A key found after materialising was there before, so nothing had to be materialised.
  lemma {:induction false} KeyPresent(doc: Json, path: Path, key: string)
    requires At(Materialized(doc, path), path).Some? && Lookup(At(Materialized(doc, path), path).value, key).Some?
    ensures IsSection(doc, path) && Materialized(doc, path) == doc
    decreases |path|
  {
    if path != [] {
      KeyPresent(ChildSection(FieldsOf(doc), path[0]), path[1..], key);
      if Lookup(doc, path[0]) == None || !doc.fields[path[0]].Object? { EmptyHasNoKey(path[1..], key); }
    }
    MaterializedIsIdentity(doc, path);
  }

  lemma {:induction false} EmptyHasNoKey(path: Path, key: string)
    ensures !(At(Materialized(EMPTY_OBJECT, path), path).Some? && Lookup(At(Materialized(EMPTY_OBJECT, path), path).value, key).Some?)
    decreases |path|
  {
    if path != [] { EmptyHasNoKey(path[1..], key); }
  }

  lemma PresentInMaterialized(doc: Json, path: Path, key: string)
    requires At(doc, path + [key]).Some?
    ensures Materialized(doc, path) == doc && At(doc, path).Some?
  {
    AtExtends(doc, path, key);
    PathToObject(doc, path);
    MaterializedIsIdentity(doc, path);
  }

  // Writing a value the materialised section does not hold yields a different document.
  lemma WrittenDiffers(doc: Json, path: Path, key: string, value: Json)
    requires IsSection(Materialized(doc, path), path) && At(Materialized(doc, path), path).Some?
    requires path == [] ==> doc.Object? || doc.Null?
    requires Lookup(At(Materialized(doc, path), path).value, key) != Some(value)
    ensures var made := Materialized(doc, path);
            Replaced(made, path, Object(WithKey(FieldsOf(At(made, path).value), key, Some(value)))) != doc
  {
    var made := Materialized(doc, path);
    WriteTouchesOnePlace(doc, path, key, Some(value), []);
    if Replaced(made, path, Object(WithKey(FieldsOf(At(made, path).value), key, Some(value)))) == doc {
      PresentInMaterialized(doc, path, key);
      AtExtends(doc, path, key);
    }
  }

  // A section with a step missing on the way is not a section.
  lemma {:induction false} StepMissing(doc: Json, path: Path, i: nat)
    requires i < |path| && IsSection(doc, path[..i]) && At(doc, path[..i]).Some?
    requires !(Lookup(At(doc, path[..i]).value, path[i]).Some? && At(doc, path[..i]).value.fields[path[i]].Object?)
    ensures !IsSection(doc, path)
    decreases i
  {
    if i > 0 {
      assert path[..i][1..] == path[1..][..i - 1];
      StepMissing(doc.fields[path[0]], path[1..], i - 1);
    }
  }
}
