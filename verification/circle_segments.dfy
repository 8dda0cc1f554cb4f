// How many segments a circle is drawn with: looked up for small radii, computed for the others. The table has
// one byte an entry, although a count may be as large as 512.
module CircleSegments {
  type Byte = n: int | 0 <= n < 256

  const CACHED := 64
  const LEAST := 4
  const MOST := 512

  // The whole number of segments that keeps the error of a circle of some radius below a bound.
  type Formula = (real, real) -> nat

  function Even(n: nat): nat { (n + 1) / 2 * 2 }

  // The count as computed: even, and within limits.
  function Computed(n: nat): (c: nat)
    ensures LEAST <= c <= MOST && c % 2 == 0
  {
    if Even(n) < LEAST then LEAST else if Even(n) > MOST then MOST else Even(n)
  }

  // Radii are rounded up to find their entry.
  function Entry(radius: real): (i: nat)
    requires radius > 0.0
  {
    (radius + 0.999999).Floor
  }

  // What is stored for a radius: the count cut down to a byte, and nothing for radius 0.
  function Stored(formula: Formula, error: real, i: nat): Byte {
    if i == 0 then 0 else Computed(formula(error, i as real)) % 256
  }

  // A stored count is lost exactly when it is one of the two that end in a zero byte.
  lemma LostInAByte(n: nat)
    ensures Computed(n) % 256 == 0 <==> Computed(n) == 256 || Computed(n) == 512
    ensures Computed(n) == 256 <==> n == 255 || n == 256
    ensures Computed(n) == 512 <==> n >= 511
  {
    if Computed(n) % 256 == 0 {
      var q := Computed(n) / 256;
      assert Computed(n) == 256 * q && 0 < q <= 2;
    }
  }

  class SharedData {
    const formula: Formula
    const counts: array<Byte>
    var maxError: real

    // Without a bound on the error, nothing is stored yet.
    ghost predicate Valid()
      reads this, counts
    {
      && counts.Length == CACHED
      && forall i :: 0 <= i < CACHED ==> counts[i] == if maxError == 0.0 then 0 else Stored(formula, maxError, i)
    }

    // The number of segments looked up or computed for a radius.
    function Segments(radius: real): nat
      reads this, counts
      requires Valid() && radius > 0.0
    {
      if Entry(radius) < CACHED then counts[Entry(radius)] else Computed(formula(maxError, radius))
    }

    constructor (formula: Formula)
      ensures Valid() && fresh(counts) && maxError == 0.0 && this.formula == formula
    {
      this.formula := formula;
      counts := new Byte[CACHED](_ => 0);
      maxError := 0.0;
    }

    method SetCircleTessellationMaxError(error: real)
      requires Valid() && error > 0.0
      modifies this, counts
      ensures Valid() && maxError == error
    {
      if maxError == error { return; }
      maxError := error;
      for i := 0 to CACHED
        invariant counts.Length == CACHED && maxError == error
        invariant forall k :: 0 <= k < i ==> counts[k] == Stored(formula, error, k)
      {
        counts[i] := if i > 0 then Computed(formula(error, i as real)) % 256 else 0;
      }
    }

    method CalcCircleAutoSegmentCount(radius: real) returns (n: nat)
      requires Valid() && radius > 0.0
      ensures n == Segments(radius)
    {
      var entry := (radius + 0.999999).Floor;
      if entry < CACHED {
        n := counts[entry];
      } else {
        n := Computed(formula(maxError, radius));
      }
    }

    // A positive radius has no segments exactly when its entry is the first, or one whose count was lost, or
    // one of a table that was never filled.
    lemma NoSegmentsExactly(radius: real)
      requires Valid() && radius > 0.0
      ensures Segments(radius) == 0 <==>
                Entry(radius) < CACHED &&
                (Entry(radius) == 0 || maxError == 0.0 || Computed(formula(maxError, Entry(radius) as real)) in {256, 512})
      ensures Entry(radius) == 0 <==> radius < 0.000001
    {
      LostInAByte(formula(maxError, Entry(radius) as real));
      if Entry(radius) >= CACHED { LostInAByte(formula(maxError, radius)); }
    }

    // Two such radii: one below the first entry, and one whose count is too large for a byte.
    lemma RadiiWithoutSegments()
      requires Valid()
      ensures Segments(0.0000005) == 0
      ensures maxError > 0.0 && formula(maxError, 63.0) >= 511 ==> Segments(63.0) == 0
    {
      NoSegmentsExactly(0.0000005);
      NoSegmentsExactly(63.0);
      assert Entry(63.0) == 63;
      LostInAByte(formula(maxError, 63.0));
    }
  }
}
