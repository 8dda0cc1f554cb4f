// When a stored value may stand in for a default: the two must be of compatible types, and an integer must fit
// the type the caller reads it as.
module ConfigValues {
  import opened JsonDocument

  // How a number is held. Documents are equal when their numbers are, whatever holds them.
  datatype Held = Signed | Unsigned | Floating

  // The type of a default: an integer of some width, or anything else.
  datatype Wanted = Integer(signed: bool, bits: nat) | Plain

  function PowerOfTwo(n: nat): (p: nat)
    ensures p >= 1
  {
    if n == 0 then 1 else 2 * PowerOfTwo(n - 1)
  }

  function Least(w: Wanted): int
    requires w.Integer? && w.bits > 0
  {
    var p: int := PowerOfTwo(w.bits - 1);
    if w.signed then -p else 0
  }

  function Most(w: Wanted): int
    requires w.Integer? && w.bits > 0
  {
    if w.signed then PowerOfTwo(w.bits - 1) - 1 else PowerOfTwo(w.bits) - 1
  }

  predicate SameType(a: Json, b: Json) {
    (a.Null? && b.Null?) || (a.Bool? && b.Bool?) || (a.Number? && b.Number?) || (a.Text? && b.Text?)
    || (a.Array? && b.Array?) || (a.Object? && b.Object?)
  }

  // A stored float is refused for an integer; a stored integer is fine for a float.
  predicate TypeCompatible(a: Json, held: Held, def: Json, defHeld: Held) {
    if def.Number? && defHeld.Floating? then a.Number?
    else if def.Number? then a.Number? && !held.Floating?
    else SameType(a, def)
  }

  predicate IntegerFits(a: Json, held: Held, w: Wanted)
    requires w.Integer? && w.bits > 0
  {
    if !a.Number? || held.Floating? then false
    else if held.Unsigned? then a.value <= Most(w) as real
    else if w.signed then Least(w) as real <= a.value <= Most(w) as real
    else 0.0 <= a.value && a.value <= Most(w) as real
  }

  // What the holders can hold.
  predicate WellHeld(a: Json, held: Held) {
    a.Number? && held.Unsigned? ==> 0.0 <= a.value
  }

  predicate Accepts(a: Json, held: Held, def: Json, defHeld: Held, w: Wanted)
    requires w.Integer? ==> w.bits > 0
  {
    TypeCompatible(a, held, def, defHeld) && (w.Integer? ==> IntegerFits(a, held, w))
  }

  // A default of the type it stands for.
  predicate IsDefault(def: Json, defHeld: Held, w: Wanted) {
    w.Integer? ==> w.bits > 0 && def.Number? && !defHeld.Floating? && Least(w) as real <= def.value <= Most(w) as real
  }

  // The kinds of values, told apart by how each is written.
  function KindOf(a: Json): nat {
    match a
    case Null => 0
    case Bool(_) => 1
    case Number(_) => 2
    case Text(_) => 3
    case Array(_) => 4
    case Object(_) => 5
  }

  // Anything but a number stands in for exactly the values of its own kind, and nothing else for a number.
  lemma OtherTypesExactly(a: Json, held: Held, def: Json, defHeld: Held)
    ensures !def.Number? ==> (Accepts(a, held, def, defHeld, Plain) <==> KindOf(a) == KindOf(def))
    ensures def.Number? ==> (Accepts(a, held, def, defHeld, Plain) <==> a.Number? && (held.Floating? ==> defHeld.Floating?))
  {
  }

  // The limits are those of two's complement.
  lemma Limits(w: Wanted)
    requires w.Integer? && w.bits > 0
    ensures Most(w) - Least(w) + 1 == PowerOfTwo(w.bits) && (w.signed ==> Least(w) == -Most(w) - 1) && (!w.signed ==> Least(w) == 0)
    ensures PowerOfTwo(8) == 256 && PowerOfTwo(16) == 0x1_0000 && PowerOfTwo(32) == 0x1_0000_0000
  {
    assert PowerOfTwo(w.bits) == 2 * PowerOfTwo(w.bits - 1);
    assert PowerOfTwo(4) == 16;
    assert PowerOfTwo(8) == 256;
    assert PowerOfTwo(12) == 4096;
    assert PowerOfTwo(16) == 0x1_0000;
    assert PowerOfTwo(20) == 0x10_0000;
    assert PowerOfTwo(24) == 0x100_0000;
    assert PowerOfTwo(28) == 0x1000_0000;
  }

  // A stored value stands in for an integer exactly when it is an integer within the limits of its type.
  lemma IntegerSurvivesExactly(a: Json, held: Held, def: Json, defHeld: Held, w: Wanted)
    requires w.Integer? && IsDefault(def, defHeld, w) && WellHeld(a, held)
    ensures Accepts(a, held, def, defHeld, w) <==>
              a.Number? && !held.Floating? && Least(w) as real <= a.value <= Most(w) as real
  {
  }

  // A stored value equal to the default is repaired exactly when a float stands where an integer should.
  lemma EqualButRepaired(held: Held, def: Json, defHeld: Held, w: Wanted)
    requires IsDefault(def, defHeld, w)
    ensures !Accepts(def, held, def, defHeld, w) <==> def.Number? && !defHeld.Floating? && held.Floating?
  {
  }
}
