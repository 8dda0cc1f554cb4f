// The three-way merge that puts one process's changes since its baseline onto the newest document.
module ThreeWayMerge {
  import opened Options
  import opened JsonDocument

  // The document committed when `local`, edited from `baseline`, meets `disk`.
  function Merge(baseline: Json, local: Json, disk: Json): Json
    decreases local, 1
  {
    if baseline == local then disk
    else if !(baseline.Object? || baseline.Null?) || !local.Object? then local
    else
      var before := Before(baseline);
      var start := Start(baseline, disk);
      Object(map key | key in start.Keys + local.fields.Keys &&
                       MergeKey(before, local, start, key).Some? ::
                 MergeKey(before, local, start, key).value)
  }

  // A null baseline stands for the empty object.
  function Before(baseline: Json): Fields {
    if baseline.Object? then baseline.fields else map[]
  }

  function Start(baseline: Json, disk: Json): Fields {
    if disk.Object? then disk.fields else Before(baseline)
  }

  function MergeKey(before: Fields, local: Json, start: Fields, key: string): Option<Json>
    requires local.Object?
    decreases local, 0
  {
    if key in local.fields then MergeValue(Field(before, key), local.fields[key], Field(start, key))
    else if key in before then None
    else Field(start, key)
  }

  function MergeValue(before: Option<Json>, local: Json, disk: Option<Json>): Option<Json>
    decreases local, 2
  {
    if before == None then
      if local.Object? && disk.Some? && disk.value.Object? then Some(Merge(EMPTY_OBJECT, local, disk.value))
      else Some(local)
    else if before.value == local then disk
    else Some(Merge(before.value, local, if disk.Some? then disk.value else before.value))
  }

  // One key of a merge of two objects, as a function of that key alone.
  lemma MergedField(baseline: Json, local: Json, disk: Json, key: string)
    requires baseline != local && (baseline.Object? || baseline.Null?) && local.Object?
    ensures Merge(baseline, local, disk).Object?
    ensures Lookup(Merge(baseline, local, disk), key)
            == MergeKey(Before(baseline), local, Start(baseline, disk), key)
  {
  }

  // A save against an unchanged file commits exactly the local document.
  lemma {:induction false} MergeOntoBaseline(baseline: Json, local: Json)
    ensures Merge(baseline, local, baseline) == local
    decreases local
  {
    if baseline != local && (baseline.Object? || baseline.Null?) && local.Object? {
      forall key
        ensures Lookup(Merge(baseline, local, baseline), key) == Lookup(local, key)
      {
        MergedField(baseline, local, baseline, key);
        if key in local.fields && key in Before(baseline) {
          MergeOntoBaseline(baseline.fields[key], local.fields[key]);
        }
      }
      ObjectsAgree(Merge(baseline, local, baseline), local);
    }
  }

  // A save against a file that already holds the local document changes nothing.
  lemma {:induction false} MergeOntoLocal(baseline: Json, local: Json)
    ensures Merge(baseline, local, local) == local
    decreases local
  {
    if baseline != local && (baseline.Object? || baseline.Null?) && local.Object? {
      forall key
        ensures Lookup(Merge(baseline, local, local), key) == Lookup(local, key)
      {
        MergedField(baseline, local, local, key);
        if key in local.fields {
          MergeOntoLocal(EMPTY_OBJECT, local.fields[key]);
          if key in Before(baseline) { MergeOntoLocal(baseline.fields[key], local.fields[key]); }
        }
      }
      ObjectsAgree(Merge(baseline, local, local), local);
    }
  }

  // Saving the same change twice is saving it once, whatever other processes wrote before.
  lemma {:induction false} MergeIsIdempotent(baseline: Json, local: Json, disk: Json)
    ensures Merge(baseline, local, Merge(baseline, local, disk)) == Merge(baseline, local, disk)
    decreases local, 0
  {
    var once := Merge(baseline, local, disk);
    if baseline != local && (baseline.Object? || baseline.Null?) && local.Object? {
      forall key
        ensures Lookup(Merge(baseline, local, once), key) == Lookup(once, key)
      {
        MergedField(baseline, local, disk, key);
        MergedField(baseline, local, once, key);
        if key in local.fields {
          MergeValueIsIdempotent(Field(Before(baseline), key), local.fields[key], Field(Start(baseline, disk), key));
        }
      }
      ObjectsAgree(Merge(baseline, local, once), once);
    }
  }

  lemma {:induction false} MergeValueIsIdempotent(before: Option<Json>, local: Json, disk: Option<Json>)
    ensures MergeValue(before, local, MergeValue(before, local, disk)) == MergeValue(before, local, disk)
    decreases local, 1
  {
    if before == None {
      MergeOntoLocal(EMPTY_OBJECT, local);
      if disk.Some? { MergeIsIdempotent(EMPTY_OBJECT, local, disk.value); }
    } else {
      MergeIsIdempotent(before.value, local, if disk.Some? then disk.value else before.value);
    }
  }

  // Whether two edits of one baseline touch no common place in different ways. Objects are compared
  // key by key; an array or a scalar is one place.
  ghost predicate Compatible(baseline: Json, x: Json, y: Json)
    decreases x
  {
    || baseline == x
    || baseline == y
    || x == y
    || (&& (baseline.Object? || baseline.Null?) && x.Object? && y.Object?
        && forall key | key in x.fields || key in y.fields ::
             CompatibleAt(Before(baseline), x, y, key))
  }

  ghost predicate CompatibleAt(before: Fields, x: Json, y: Json, key: string)
    requires x.Object? && y.Object? && (key in x.fields || key in y.fields)
    decreases x, 0
  {
    if key in x.fields && key in y.fields then
      if key in before then Compatible(before[key], x.fields[key], y.fields[key])
      else if x.fields[key].Object? && y.fields[key].Object? then
        Compatible(EMPTY_OBJECT, x.fields[key], y.fields[key])
      else x.fields[key] == y.fields[key]
    else
      // Added by one side only, or removed by one side and left alone by the other.
      key in before ==> before[key] == (if key in x.fields then x.fields[key] else y.fields[key])
  }

  // Two saves from one baseline commit the same document in either order exactly when the edits
  // are compatible.
  lemma {:induction false} MergeCommutes(baseline: Json, x: Json, y: Json)
    ensures Merge(baseline, x, y) == Merge(baseline, y, x) <==> Compatible(baseline, x, y)
    decreases x
  {
    MergeOntoBaseline(baseline, x);
    MergeOntoBaseline(baseline, y);
    if baseline != x && baseline != y && (baseline.Object? || baseline.Null?) && x.Object? && y.Object? {
      var xy, yx := Merge(baseline, x, y), Merge(baseline, y, x);
      forall key
        ensures key !in x.fields && key !in y.fields ==> Lookup(xy, key) == Lookup(yx, key)
        ensures key in x.fields || key in y.fields ==>
                  (Lookup(xy, key) == Lookup(yx, key) <==> CompatibleAt(Before(baseline), x, y, key))
      {
        MergedField(baseline, x, y, key);
        MergedField(baseline, y, x, key);
        if key in x.fields || key in y.fields { MergeCommutesAt(Before(baseline), x, y, key); }
      }
      if xy == yx {
        assert Compatible(baseline, x, y);
      } else if Compatible(baseline, x, y) && x != y {
        ObjectsAgree(xy, yx);
      }
    }
  }

  lemma MergeCommutesAt(before: Fields, x: Json, y: Json, key: string)
    requires x.Object? && y.Object? && (key in x.fields || key in y.fields)
    ensures MergeKey(before, x, y.fields, key) == MergeKey(before, y, x.fields, key)
            <==> CompatibleAt(before, x, y, key)
    decreases x, 0
  {
    if key in x.fields {
      if key in before { MergeOntoBaseline(before[key], x.fields[key]); }
      if key in y.fields {
        if key in before { MergeCommutes(before[key], x.fields[key], y.fields[key]); }
        MergeCommutes(EMPTY_OBJECT, x.fields[key], y.fields[key]);
      }
    }
    if key in y.fields && key in before { MergeOntoBaseline(before[key], y.fields[key]); }
  }

  method EraseRemoved(before: Fields, local: Fields, start: Fields) returns (fields: Fields)
    ensures fields == map key | key in start && (key in before ==> key in local) :: start[key]
  {
    fields := start;
    var pending := before.Keys;
    while pending != {}
      invariant pending <= before.Keys
      invariant fields == map key | key in start && (key in before && key !in pending ==> key in local) :: start[key]
      decreases |pending|
    {
      var key :| key in pending;
      if key !in local { fields := fields - {key}; }
      pending := pending - {key};
    }
  }

  // The merge as the store runs it: erase what was removed locally, then write what was set locally.
  method MergeLocalChanges(baseline: Json, local: Json, disk: Json) returns (merged: Json)
    ensures merged == Merge(baseline, local, disk)
    decreases local
  {
    if baseline == local { return disk; }
    if !(baseline.Object? || baseline.Null?) || !local.Object? { return local; }
    var before := if baseline.Null? then map[] else baseline.fields;
    var start := if disk.Object? then disk.fields else before;
    var fields := EraseRemoved(before, local.fields, start);

    var pending := local.fields.Keys;
    while pending != {}
      invariant pending <= local.fields.Keys
      invariant forall key :: Field(fields, key) ==
                              if key in pending then Field(start, key) else MergeKey(before, local, start, key)
      decreases |pending|
    {
      var key :| key in pending;
      var value := local.fields[key];
      if key !in before {
        if value.Object? && key in fields && fields[key].Object? {
          var added := MergeLocalChanges(EMPTY_OBJECT, value, fields[key]);
          fields := fields[key := added];
        } else {
          fields := fields[key := value];
        }
      } else if before[key] != value {
        var changed := MergeLocalChanges(before[key], value, if key in fields then fields[key] else before[key]);
        fields := fields[key := changed];
      }
      pending := pending - {key};
    }
    merged := Object(fields);
    forall key ensures Lookup(merged, key) == Lookup(Merge(baseline, local, disk), key) {
      MergedField(baseline, local, disk, key);
    }
    ObjectsAgree(merged, Merge(baseline, local, disk));
  }

  // A key the local edit left alone keeps whatever is on disk.
  lemma UntouchedKeyKeepsDisk(baseline: Json, local: Json, disk: Json, key: string)
    requires local.Object? && disk.Object?
    requires Lookup(baseline, key) == Lookup(local, key) && (baseline.Object? || baseline.Null?)
    ensures Merge(baseline, local, disk).Object?
    ensures Lookup(Merge(baseline, local, disk), key) == Lookup(disk, key)
  {
    if baseline != local { MergedField(baseline, local, disk, key); }
  }

  // A key nobody else changed on disk ends with the local value, whether set, edited or removed.
  lemma UncontestedKeyTakesLocal(baseline: Json, local: Json, disk: Json, key: string)
    requires baseline.Object? && local.Object? && disk.Object?
    requires Lookup(baseline, key) == Lookup(disk, key)
    ensures Lookup(Merge(baseline, local, disk), key) == Lookup(local, key)
  {
    if baseline != local {
      MergedField(baseline, local, disk, key);
      if key in local.fields && key in baseline.fields {
        MergeOntoBaseline(baseline.fields[key], local.fields[key]);
      }
    }
  }

  // ---- whose value ends up under one key

  // The merge goes key by key; otherwise one document replaces the other.
  predicate KeyByKey(baseline: Json, local: Json) {
    (baseline.Object? || baseline.Null?) && local.Object?
  }

  // Merging keeps what every object on disk has under a key exactly when the local edit left the key alone
  // and the merge goes key by key.
  lemma KeepsDiskKeyExactly(baseline: Json, local: Json, key: string)
    ensures (forall disk: Json :: disk.Object? ==> Lookup(Merge(baseline, local, disk), key) == Lookup(disk, key))
            <==> local == baseline || (KeyByKey(baseline, local) && Lookup(local, key) == Lookup(baseline, key))
  {
    if local == baseline {
    } else if KeyByKey(baseline, local) && Lookup(local, key) == Lookup(baseline, key) {
      forall disk: Json | disk.Object? ensures Lookup(Merge(baseline, local, disk), key) == Lookup(disk, key) {
        UntouchedKeyKeepsDisk(baseline, local, disk, key);
      }
    } else {
      var without, having := EMPTY_OBJECT, Object(map[key := Null]);
      if KeyByKey(baseline, local) {
        MergedField(baseline, local, without, key);
        MergedField(baseline, local, having, key);
      }
      assert Lookup(without, key) == None && Lookup(having, key) == Some(Null);
      assert Lookup(Merge(baseline, local, without), key) != None || Lookup(Merge(baseline, local, having), key) != Some(Null);
    }
  }

  // A document on disk that is no object has no keys; the merge then brings in the local ones.
  lemma KeepsNoKeyExactly(baseline: Json, local: Json, disk: Json, key: string)
    requires !disk.Object? && Lookup(local, key) == Lookup(baseline, key)
    ensures Lookup(Merge(baseline, local, disk), key) == Lookup(disk, key)
            <==> local == baseline || Lookup(local, key) == None
  {
    if local != baseline && KeyByKey(baseline, local) { MergedField(baseline, local, disk, key); }
  }

  // Whether a local value stands although the file has `disk` where the baseline had `before`: nobody else
  // changed it, or it replaces whatever is there, or both are objects and this holds of each of their keys.
  ghost predicate Stands(before: Option<Json>, local: Json, disk: Option<Json>)
    decreases local
  {
    if before == Some(local) then disk == Some(local)
    else if !local.Object? || disk.None? || !disk.value.Object? then true
    else if before.Some? && !(before.value.Object? || before.value.Null?) then true
    else
      var b, d := Before(if before.Some? then before.value else EMPTY_OBJECT), disk.value.fields;
      && (forall k :: k in local.fields ==> Stands(Field(b, k), local.fields[k], Field(d, k)))
      && (forall k :: k in d && k !in local.fields ==> k in b)
  }

  lemma {:induction false} StandsExactly(before: Option<Json>, local: Json, disk: Option<Json>)
    ensures MergeValue(before, local, disk) == Some(local) <==> Stands(before, local, disk)
    decreases local
  {
    if before == Some(local) || !local.Object? {
    } else if before.Some? && !(before.value.Object? || before.value.Null?) {
    } else if disk.None? || !disk.value.Object? {
      if before.Some? { MergeOntoNoObject(before.value, local, if disk.Some? then disk.value else before.value); }
    } else {
      var b := if before.Some? then before.value else EMPTY_OBJECT;
      if b == local {
        assert before == None && local == EMPTY_OBJECT;
        assert MergeValue(before, local, disk) == disk;
        if disk.value != local { assert exists k :: k in disk.value.fields; }
      } else {
        var merged := Merge(b, local, disk.value);
        assert MergeValue(before, local, disk) == Some(merged);
        forall k
          ensures Lookup(merged, k) == Lookup(local, k) <==>
            if k in local.fields then Stands(Field(Before(b), k), local.fields[k], Field(disk.value.fields, k))
            else k in disk.value.fields ==> k in Before(b)
        {
          MergedField(b, local, disk.value, k);
          if k in local.fields { StandsExactly(Field(Before(b), k), local.fields[k], Field(disk.value.fields, k)); }
        }
        if forall k :: Lookup(merged, k) == Lookup(local, k) { ObjectsAgree(merged, local); }
      }
    }
  }

  lemma MergeOntoNoObject(baseline: Json, local: Json, disk: Json)
    requires baseline != local && (baseline.Object? || baseline.Null?) && local.Object?
    requires disk == baseline || !disk.Object?
    ensures Merge(baseline, local, disk) == local
  {
    MergeOntoBaseline(baseline, local);
    assert Start(baseline, disk) == Start(baseline, baseline);
    forall k ensures Lookup(Merge(baseline, local, disk), k) == Lookup(Merge(baseline, local, baseline), k) {
      MergedField(baseline, local, disk, k);
      MergedField(baseline, local, baseline, k);
    }
    ObjectsAgree(Merge(baseline, local, disk), Merge(baseline, local, baseline));
  }

  // Whether the local value of a key stands after the merge.
  ghost predicate LocalStands(baseline: Json, local: Json, disk: Json, key: string) {
    if local == baseline then Lookup(disk, key) == Lookup(local, key)
    else if !KeyByKey(baseline, local) then true
    else
      var found := Field(Start(baseline, disk), key);
      if key in local.fields then Stands(Field(Before(baseline), key), local.fields[key], found)
      else key in Before(baseline) || found == None
  }

  lemma LocalStandsExactly(baseline: Json, local: Json, disk: Json, key: string)
    ensures Lookup(Merge(baseline, local, disk), key) == Lookup(local, key) <==> LocalStands(baseline, local, disk, key)
  {
    if local != baseline && KeyByKey(baseline, local) {
      MergedField(baseline, local, disk, key);
      if key in local.fields { StandsExactly(Field(Before(baseline), key), local.fields[key], Field(Start(baseline, disk), key)); }
    }
  }

  // It does whenever nobody else has changed the key since the baseline.
  lemma UnchangedStands(baseline: Json, local: Json, disk: Json, key: string)
    requires Lookup(baseline, key) == Lookup(disk, key)
    ensures LocalStands(baseline, local, disk, key)
  {
    LocalStandsExactly(baseline, local, disk, key);
    if local != baseline && KeyByKey(baseline, local) {
      MergedField(baseline, local, disk, key);
      if key in local.fields && key in Before(baseline) {
        MergeOntoBaseline(Before(baseline)[key], local.fields[key]);
      }
    }
  }
}
