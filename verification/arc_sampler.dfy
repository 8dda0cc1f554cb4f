// Sampling an arc of a circle from a table of 48 points: the number of points is computed first, room for
// exactly that many is reserved in the path, and a loop then writes them.
module ArcSampler {
  import opened CircleSegments

  const SAMPLE_MAX := 48

  function Abs(n: int): nat { if n < 0 then -n else n }

  // The division and remainder of C, which round towards zero.
  function TruncMod(a: int, n: int): int
    requires n > 0
  {
    if a >= 0 then a % n else -(-a % n)
  }

  function Clamped(step: int): (s: nat)
    ensures 1 <= s <= SAMPLE_MAX / 4
    ensures 1 <= step <= SAMPLE_MAX / 4 ==> s == step
    ensures (s < step ==> s == SAMPLE_MAX / 4) && (step < s ==> s == 1)
  {
    if step < 1 then 1 else if step > SAMPLE_MAX / 4 then SAMPLE_MAX / 4 else step
  }

  // The step asked for, or the one the circle's segment count gives.
  function StepOf(step: int, segments: nat): nat
    requires step <= 0 ==> segments != 0
  {
    Clamped(if step <= 0 then SAMPLE_MAX / segments else step)
  }

  // The step wanted, as long as it is no more than a quarter; one for each segment, if none is wanted, but at
  // least one and at most a quarter.
  lemma StepIs(step: int, segments: nat)
    requires step <= 0 ==> segments != 0
    ensures 0 < step <= SAMPLE_MAX / 4 ==> StepOf(step, segments) == step
    ensures step > SAMPLE_MAX / 4 ==> StepOf(step, segments) == SAMPLE_MAX / 4
    ensures step <= 0 && 4 <= segments <= SAMPLE_MAX ==>
              segments * StepOf(step, segments) <= SAMPLE_MAX < segments * (StepOf(step, segments) + 1)
    ensures step <= 0 && segments < 4 ==> StepOf(step, segments) == SAMPLE_MAX / 4
    ensures step <= 0 && segments > SAMPLE_MAX ==> StepOf(step, segments) == 1
  {
    if step <= 0 {
      var q := SAMPLE_MAX / segments;
      assert segments * q <= SAMPLE_MAX < segments * (q + 1);
      if segments < 4 { MoreIsMore(segments, 3, q + 1); } else { MoreIsMore(4, segments, q); }
      if segments > SAMPLE_MAX { MoreIsMore(SAMPLE_MAX + 1, segments, q); } else { MoreIsMore(segments, SAMPLE_MAX, q + 1); }
    }
  }

  lemma MoreIsMore(a: nat, b: nat, n: nat)
    requires a <= b
    ensures a * n <= b * n
  {
  }

  // The table entry of a sample number, however many turns away.
  function TableIndex(sample: int): (i: nat)
    ensures i < SAMPLE_MAX
  {
    sample % SAMPLE_MAX
  }

  // A remainder of C has the sign of the sample, and a negative one is one turn short of the table entry.
  lemma TruncWraps(sample: int)
    ensures var r := TruncMod(sample, SAMPLE_MAX);
            -SAMPLE_MAX < r < SAMPLE_MAX && (sample >= 0 ==> r >= 0) && (sample <= 0 ==> r <= 0) && (sample - r) % SAMPLE_MAX == 0
    ensures var r := TruncMod(sample, SAMPLE_MAX); TableIndex(sample) == if r < 0 then r + SAMPLE_MAX else r
  {
  }

  // The same table entry, a whole number of turns apart.
  ghost predicate SameEntry(sample: int, index: int) { (sample - index) % SAMPLE_MAX == 0 }

  lemma NextEntry(sample: int, index: int, wrapped: int, next: int, nextIndex: int)
    requires SameEntry(sample, index) && wrapped in [index, index + SAMPLE_MAX, index - SAMPLE_MAX]
    requires next - sample == nextIndex - wrapped
    ensures SameEntry(next, nextIndex)
    ensures 0 <= wrapped < SAMPLE_MAX ==> wrapped == TableIndex(sample)
  {
    assert SameEntry(sample, wrapped);
    assert next - nextIndex == sample - wrapped;
  }

  // How far along the arc a sample is.
  function Along(first: int, last: int, sample: int): int {
    if last >= first then sample - first else first - sample
  }

  // What a walk along the arc must be: it starts at the first sample, ends at the last, always moves
  // towards it and never by more than the step.
  ghost predicate IsWalk(at: seq<int>, first: int, last: int, step: nat) {
    && |at| > 0 && at[0] == first && at[|at| - 1] == last
    && forall k :: 0 < k < |at| ==> 0 < Along(first, last, at[k]) - Along(first, last, at[k - 1]) <= step
  }

  // The walk is as short as the step allows, except that a step that does not divide the arc is made up
  // for by one more.
  function PointCount(range: nat, step: nat): nat
    requires step > 0
  {
    range / step + 1 + (if range % step > 0 then 1 else 0)
  }

  // Points `from` on are the table's, one per stop of the walk.
  ghost predicate Draws<P>(points: seq<P>, from: nat, table: seq<P>, at: seq<int>)
    requires |table| == SAMPLE_MAX
  {
    |points| == from + |at| && forall k :: 0 <= k < |at| ==> points[from + k] == table[TableIndex(at[k])]
  }

  // What every walk has in common: it cannot be shorter than the step allows.
  lemma {:induction false} WalkIsLongEnough(at: seq<int>, first: int, last: int, step: nat)
    requires IsWalk(at, first, last, step) && step > 0
    ensures |at| >= PointCount(Abs(last - first), step)
  {
    var range := Abs(last - first);
    WalkReach(at, first, last, step, |at| - 1);
    Needed(range, step, |at| - 1);
  }

  lemma {:induction false} WalkReach(at: seq<int>, first: int, last: int, step: nat, k: nat)
    requires IsWalk(at, first, last, step) && k < |at|
    ensures k <= Along(first, last, at[k]) <= k * step
  {
    if k > 0 { WalkReach(at, first, last, step, k - 1); }
  }

  lemma Needed(range: nat, step: nat, moves: nat)
    requires step > 0 && range <= moves * step
    ensures moves + 1 >= PointCount(range, step)
  {
    var q := range / step;
    Quotient(range, step);
    if moves < q { Times(moves + 1, q, step); }
  }

  lemma Quotient(n: nat, step: nat)
    requires step > 0
    ensures n == n / step * step + n % step
  {
  }

  lemma Times(a: nat, b: nat, c: nat)
    requires a <= b
    ensures a * c <= b * c
  {
  }

  // The turns of a loop that takes `step` off what is left until nothing is, and the last value it had.
  function Turns(left: int, step: nat): nat
    requires step > 0
    decreases if left < 0 then 0 else left + 1
  {
    if left < 0 then 0 else 1 + Turns(left - step, step)
  }

  function Rest(left: nat, step: nat): nat
    requires step > 0
  {
    if left < step then left else Rest(left - step, step)
  }

  lemma {:induction false} LoopDivides(left: nat, step: nat)
    requires step > 0
    ensures Turns(left, step) == left / step + 1 && Rest(left, step) == left % step
  {
    if left < step {
      SameQuotient(left, step, 0, left);
    } else {
      LoopDivides(left - step, step);
      Quotient(left - step, step);
      SameQuotient(left, step, (left - step) / step + 1, (left - step) % step);
    }
  }

  lemma SameQuotient(n: nat, step: nat, q: int, r: nat)
    requires n == q * step + r && r < step
    ensures n / step == q && n % step == r
  {
    Quotient(n, step);
    var d := n / step - q;
    assert d * step == r - n % step;
    if d >= 1 { Times(1, d, step); }
  }

  // The first move of a walk over `range`: when the step leaves an overstep, half of what is missing is
  // taken off it.
  function FirstMove(range: nat, step: nat): nat
    requires step > 0
  {
    var over := range % step;
    if over > 0 then step - (step - over) / 2 else step
  }

  // What the regular moves leave for the closing point.
  function Tail(range: nat, step: nat): nat
    requires step > 0
  {
    var over := range % step;
    if over == 0 || range < step then over else over + (step - over) / 2
  }

  // What the first move has to leave: a number of turns, and a tail after the last of them.
  ghost predicate Plan(range: nat, step: nat, move: nat, turns: nat, tail: nat)
    requires step > 0
  {
    && 0 < move <= step && tail < step
    && (move <= range ==> 1 + Turns(range - move, step) == turns && Rest(range - move, step) == tail)
    && (range < move ==> turns == 1 && tail == range)
  }

  lemma PlanOf(range: nat, step: nat)
    requires step > 0
    ensures Plan(range, step, FirstMove(range, step), range / step + 1, Tail(range, step))
    ensures Tail(range, step) == 0 <==> range % step == 0
  {
    var f, over, q := FirstMove(range, step), range % step, range / step;
    Quotient(range, step);
    if range < step {
      SameQuotient(range, step, 0, range);
    } else {
      assert (q - 1) * step == q * step - step;
      SameQuotient(range - f, step, q - 1, Tail(range, step));
      LoopDivides(range - f, step);
    }
  }

  // One turn of either loop: the walk so far, the next sample and the next move.
  ghost predicate Turning(at: seq<int>, a: int, move: nat, first: int, last: int, step: nat, turns: nat, tail: nat)
    requires step > 0
  {
    var left := Abs(last - first) - Along(first, last, a);
    && 0 < move <= step
    && (forall k :: 0 < k < |at| ==> 0 < Along(first, last, at[k]) - Along(first, last, at[k - 1]) <= step)
    && (at == [] ==> a == first && Plan(Abs(last - first), step, move, turns, tail))
    && (at != [] ==>
          && at[0] == first && move == step
          && 0 < Along(first, last, a) - Along(first, last, at[|at| - 1]) <= step
          && OnSchedule(|at|, left, Abs(last - first) - Along(first, last, at[|at| - 1]), step, turns, tail))
  }

  // After some points, the rest of the arc is as many regular moves as are due, and the tail.
  ghost predicate OnSchedule(points: nat, left: int, before: int, step: nat, turns: nat, tail: nat)
    requires step > 0
  {
    && points + Turns(left, step) == turns
    && (if left >= 0 then Rest(left, step) == tail else before == tail)
  }

  lemma TurnTaken(at: seq<int>, a: int, move: nat, first: int, last: int, step: nat, turns: nat, tail: nat)
    requires step > 0 && Turning(at, a, move, first, last, step, turns, tail)
    requires Along(first, last, a) <= Abs(last - first)
    ensures Turning(at + [a], if last >= first then a + move else a - move, step, first, last, step, turns, tail)
    ensures |at| < turns
  {
    var next, left := if last >= first then a + move else a - move, Abs(last - first) - Along(first, last, a);
    assert OnSchedule(|at| + 1, left - move, left, step, turns, tail);
    forall k | 0 < k < |at + [a]|
      ensures 0 < Along(first, last, (at + [a])[k]) - Along(first, last, (at + [a])[k - 1]) <= step
    {
      if k == |at| { assert (at + [a])[k] == a && (at + [a])[k - 1] == at[k - 1]; }
    }
  }

  // The closing point, written if there is a tail, completes the walk.
  lemma TurnsDone(at: seq<int>, a: int, move: nat, first: int, last: int, step: nat, turns: nat, tail: nat)
    requires step > 0 && Turning(at, a, move, first, last, step, turns, tail) && 0 <= tail < step
    requires Along(first, last, a) > Abs(last - first)
    ensures |at| == turns && IsWalk(if tail > 0 then at + [last] else at, first, last, step)
  {
  }

  lemma DrawsOneMore<P>(points: seq<P>, from: nat, table: seq<P>, at: seq<int>, p: P, a: int)
    requires |table| == SAMPLE_MAX && Draws(points, from, table, at) && p == table[TableIndex(a)]
    ensures Draws(points + [p], from, table, at + [a])
  {
  }

  // Where in the table the first sample is.
  method FirstIndex(first: int) returns (index: int)
    ensures index == TableIndex(first)
  {
    TruncWraps(first);
    index := first;
    if index < 0 || index >= SAMPLE_MAX {
      index := TruncMod(index, SAMPLE_MAX);
      if index < 0 {
        index := index + SAMPLE_MAX;
      }
    }
  }

  // The growing array of points a path is collected in.
  class Path<P(0)> {
    var data: array<P>

    constructor ()
      ensures fresh(data) && data[..] == []
    {
      data := new P[0];
    }

    method PushBack(p: P)
      modifies this`data
      ensures fresh(data) && data[..] == old(data[..]) + [p]
    {
      Resize(data.Length + 1);
      data[data.Length - 1] := p;
    }

    method Resize(size: nat)
      requires size >= data.Length
      modifies this`data
      ensures fresh(data) && data.Length == size && data[..old(data.Length)] == old(data[..])
    {
      var grown, from := new P[size], data;
      for i := 0 to from.Length
        invariant forall k :: 0 <= k < i ==> grown[k] == from[k]
      {
        grown[i] := from[i];
      }
      data := grown;
    }

    // The next point, behind those of the walk so far.
    method WritePoint(table: seq<P>, out: nat, index: int, ghost from: nat, ghost at: seq<int>, ghost sample: int)
      requires |table| == SAMPLE_MAX && out == from + |at| < data.Length && Draws(data[..out], from, table, at)
      requires index == TableIndex(sample)
      modifies data
      ensures data[..from] == old(data[..from]) && Draws(data[..out + 1], from, table, at + [sample])
    {
      ghost var written := data[..out];
      data[out] := table[index];
      DrawsOneMore(written, from, table, at, table[index], sample);
      assert data[..out + 1] == written + [table[index]];
    }

    // One turn of either loop.
    method WriteTurn(table: seq<P>, out: nat, index: int, ghost from: nat, ghost at: seq<int>, ghost sample: int,
      ghost move: nat, ghost first: int, ghost last: int, ghost step: nat, ghost turns: nat, ghost tail: nat)
      returns (ghost more: seq<int>)
      requires |table| == SAMPLE_MAX && out == from + |at| <= from + turns <= data.Length && Draws(data[..out], from, table, at)
      requires index == TableIndex(sample) && step > 0 && Along(first, last, sample) <= Abs(last - first)
      requires Turning(at, sample, move, first, last, step, turns, tail)
      modifies data
      ensures |more| == |at| + 1 <= turns && out < data.Length
      ensures data[..from] == old(data[..from]) && Draws(data[..out + 1], from, table, more)
      ensures Turning(more, if last >= first then sample + move else sample - move, step, first, last, step, turns, tail)
    {
      TurnTaken(at, sample, move, first, last, step, turns, tail);
      WritePoint(table, out, index, from, at, sample);
      more := at + [sample];
    }

    // The loop towards a later sample.
    method WriteForward(table: seq<P>, from: nat, index0: int, first: int, last: int, firstMove: nat, step: nat,
      ghost turns: nat, ghost tail: nat)
      returns (ghost at: seq<int>, out: nat, ghost a: int)
      requires |table| == SAMPLE_MAX && last >= first && from + turns <= data.Length
      requires 0 < step <= SAMPLE_MAX / 4 && Plan(Abs(last - first), step, firstMove, turns, tail)
      requires index0 == TableIndex(first)
      modifies data
      ensures Turning(at, a, step, first, last, step, turns, tail) && Along(first, last, a) > Abs(last - first)
      ensures out == from + |at| <= data.Length && data[..from] == old(data[..from]) && Draws(data[..out], from, table, at)
    {
      at, out := [], from;
      var sample, index, move := first, index0, firstMove;
      while sample <= last
        invariant Turning(at, sample, move, first, last, step, turns, tail)
        invariant 0 <= index < SAMPLE_MAX + SAMPLE_MAX / 4 && SameEntry(sample, index)
        invariant out == from + |at| <= from + turns && data[..from] == old(data[..from]) && Draws(data[..out], from, table, at)
        decreases last - sample
      {
        ghost var unwrapped := index;
        if index >= SAMPLE_MAX {
          index := index - SAMPLE_MAX;
        }
        NextEntry(sample, unwrapped, index, sample + move, index + move);
        at := WriteTurn(table, out, index, from, at, sample, move, first, last, step, turns, tail);
        sample, index, move, out := sample + move, index + move, step, out + 1;
      }
      a := sample;
    }

    // The loop towards an earlier sample.
    method WriteBackward(table: seq<P>, from: nat, index0: int, first: int, last: int, firstMove: nat, step: nat,
      ghost turns: nat, ghost tail: nat)
      returns (ghost at: seq<int>, out: nat, ghost a: int)
      requires |table| == SAMPLE_MAX && last < first && from + turns <= data.Length
      requires 0 < step <= SAMPLE_MAX / 4 && Plan(Abs(last - first), step, firstMove, turns, tail)
      requires index0 == TableIndex(first)
      modifies data
      ensures Turning(at, a, step, first, last, step, turns, tail) && Along(first, last, a) > Abs(last - first)
      ensures out == from + |at| <= data.Length && data[..from] == old(data[..from]) && Draws(data[..out], from, table, at)
    {
      at, out := [], from;
      var sample, index, move := first, index0, firstMove;
      while sample >= last
        invariant Turning(at, sample, move, first, last, step, turns, tail)
        invariant -(SAMPLE_MAX / 4) <= index < SAMPLE_MAX && SameEntry(sample, index)
        invariant out == from + |at| <= from + turns && data[..from] == old(data[..from]) && Draws(data[..out], from, table, at)
        decreases sample - last
      {
        ghost var unwrapped := index;
        if index < 0 {
          index := index + SAMPLE_MAX;
        }
        NextEntry(sample, unwrapped, index, sample - move, index - move);
        at := WriteTurn(table, out, index, from, at, sample, move, first, last, step, turns, tail);
        sample, index, move, out := sample - move, index - move, step, out + 1;
      }
      a := sample;
    }

    // The closing point, in the last place.
    method WriteLast(table: seq<P>, from: nat, last: int, ghost at: seq<int>)
      requires |table| == SAMPLE_MAX && data.Length > 0 && Draws(data[..data.Length - 1], from, table, at)
      modifies data
      ensures data[..from] == old(data[..from]) && Draws(data[..], from, table, at + [last])
    {
      var end := TruncMod(last, SAMPLE_MAX);
      TruncWraps(last);
      if end < 0 {
        end := end + SAMPLE_MAX;
      }
      WritePoint(table, data.Length - 1, end, from, at, last);
      assert data[..] == data[..data.Length];
    }

    // The points of the whole arc, into the room reserved for them.
    method WriteArc(table: seq<P>, from: nat, first: int, last: int, firstMove: nat, step: nat, extra: bool,
      ghost turns: nat, ghost tail: nat)
      returns (ghost at: seq<int>)
      requires |table| == SAMPLE_MAX && data.Length == from + turns + (if extra then 1 else 0)
      requires 0 < step <= SAMPLE_MAX / 4 && Plan(Abs(last - first), step, firstMove, turns, tail)
      requires extra <==> tail > 0
      modifies data
      ensures data[..from] == old(data[..from])
      ensures |at| == data.Length - from && IsWalk(at, first, last, step) && Draws(data[..], from, table, at)
    {
      var index := FirstIndex(first);
      var out: nat;
      ghost var a;
      if last >= first {
        at, out, a := WriteForward(table, from, index, first, last, firstMove, step, turns, tail);
      } else {
        at, out, a := WriteBackward(table, from, index, first, last, firstMove, step, turns, tail);
      }
      TurnsDone(at, a, step, first, last, step, turns, tail);
      if extra {
        WriteLast(table, from, last, at);
        at := at + [last];
      } else {
        assert data[..] == data[..out];
      }
    }

    // `table` holds the arc's 48 points, already placed around the centre. Without a step the original
    // divides by the number of segments of the circle: `defined` says that it does not divide by 0.
    method ArcToFast(shared: SharedData, centre: P, table: seq<P>, radius: real, first: int, last: int, wanted: int)
      returns (defined: bool, ghost at: seq<int>)
      requires |table| == SAMPLE_MAX && shared.Valid()
      modifies this`data
      ensures defined <==> radius <= 0.0 || wanted > 0 || shared.Segments(radius) != 0
      ensures !defined ==> data == old(data) && data[..] == old(data[..])
      ensures defined ==> fresh(data) && old(data.Length) <= data.Length && data[..old(data.Length)] == old(data[..])
      ensures radius <= 0.0 ==> data[..] == old(data[..]) + [centre]
      ensures defined && radius > 0.0 ==>
                var step := StepOf(wanted, shared.Segments(radius));
                && IsWalk(at, first, last, step) && |at| == PointCount(Abs(last - first), step)
                && Draws(data[..], old(data.Length), table, at)
    {
      defined, at := true, [];
      if radius <= 0.0 {
        PushBack(centre);
        return;
      }
      var step: int := wanted;
      if step <= 0 {
        var segments := shared.CalcCircleAutoSegmentCount(radius);
        if segments == 0 { return false, []; }
        step := SAMPLE_MAX / segments;
      }
      step := Clamped(step);
      at := WriteSteps(table, first, last, step);
    }

    // The points of an arc with a step, in room reserved for exactly as many.
    method WriteSteps(table: seq<P>, first: int, last: int, chosen: nat) returns (ghost at: seq<int>)
      requires |table| == SAMPLE_MAX && 0 < chosen <= SAMPLE_MAX / 4
      modifies this`data
      ensures fresh(data) && old(data.Length) <= data.Length && data[..old(data.Length)] == old(data[..])
      ensures IsWalk(at, first, last, chosen) && |at| == PointCount(Abs(last - first), chosen)
      ensures Draws(data[..], old(data.Length), table, at)
    {
      var step: int := chosen;
      var range := Abs(last - first);
      var nextStep: nat := step;
      ghost var tail := Tail(range, nextStep);
      PlanOf(range, nextStep);

      var samples := range + 1;
      var extra := false;
      if step > 1 {
        samples := range / step + 1;
        var over := range % step;
        if over > 0 {
          extra := true;
          samples := samples + 1;
          if range > 0 {
            step := step - (step - over) / 2;
          }
        }
      }

      var size := data.Length;
      Resize(size + samples);
      at := WriteArc(table, data.Length - samples, first, last, step, nextStep, extra, range / nextStep + 1, tail);
    }
  }
}
