// The waste below a window of the skyline, as the packer adds it up while it walks the corners, and what its
// best-fit rule makes of it.
module SkylineWaste {
  import opened Skyline

  // The corner whose segment holds column x.
  function SegmentFrom(line: Line, x: nat, k: nat): (i: nat)
    requires k < |line|
    ensures k <= i < |line|
    decreases |line| - k
  {
    if k + 1 < |line| && line[k + 1].x <= x then SegmentFrom(line, x, k + 1) else k
  }

  lemma {:induction false} CoveringSegment(line: Line, width: nat, x: nat, k: nat, i: nat)
    requires IsSkyline(line, width) && Covers(line, i, x) && k <= i
    ensures SegmentFrom(line, x, k) == i
    decreases i - k
  {
    if k < i {
      assert line[k + 1].x <= line[i].x;
      CoveringSegment(line, width, x, k + 1, i);
    }
  }

  // The height, the waste and the width visited so far.
  datatype Tally = Tally(minY: nat, waste: int, visited: int)

  // The segment of corner k added to a walk over the window of w columns from x0.
  function Counted(line: Line, k: nat, x0: int, w: int, t: Tally): Tally
    requires k + 1 < |line|
  {
    var x, y, next := line[k].x, line[k].y, line[k + 1].x;
    if y > t.minY then
      Tally(y, t.waste + t.visited * (y - t.minY), t.visited + (if x < x0 then next - x0 else next - x))
    else
      var under := if next - x + t.visited > w then w - t.visited else next - x;
      Tally(t.minY, t.waste + under * (t.minY - y), t.visited + under)
  }

  function Scan(line: Line, k: nat, x0: int, w: int, t: Tally): Tally
    requires k < |line|
    decreases |line| - k
  {
    if k + 1 >= |line| || x0 + w <= line[k].x then t else Scan(line, k + 1, x0, w, Counted(line, k, x0, w, t))
  }

  // The waste the walk adds up for a window.
  function Total(line: Line, x: nat, w: nat): int
    requires |line| > 0
  {
    Scan(line, SegmentFrom(line, x, 0), x, w, Tally(0, 0, 0)).waste
  }

  // The sums are kept in 32 bits.
  type Int32 = n: int | -0x8000_0000 <= n < 0x8000_0000

  function Wrap(n: int): (r: Int32)
    ensures -0x8000_0000 <= n < 0x8000_0000 ==> r == n
    ensures 0x8000_0000 <= n < 0x1_8000_0000 ==> r == n - 0x1_0000_0000
  {
    (n + 0x8000_0000) % 0x1_0000_0000 - 0x8000_0000
  }

  // It does not matter whether the terms are cut to 32 bits, or only their sum.
  lemma WrapOnce(a: int, b: int)
    ensures Wrap(Wrap(a) + Wrap(b)) == Wrap(a + b)
  {
    var p, q := (a + 0x8000_0000) / 0x1_0000_0000, (b + 0x8000_0000) / 0x1_0000_0000;
    assert Wrap(a) + Wrap(b) == a + b - (p + q) * 0x1_0000_0000;
  }

  // What is reported of it.
  function Reported(line: Line, x: nat, w: nat): Int32
    requires |line| > 0
  {
    Wrap(Total(line, x, w))
  }

  // The area between the clear height of a window and the skyline below it.
  function Waste(line: Line, x: nat, w: nat): int
    requires |line| > 0
  {
    w * Top(line, x, w) - Area(line, x, w)
  }

  // The part of the window that lies before corner k.
  function Seen(line: Line, i: nat, k: nat, x0: nat, w: nat): int
    requires k < |line|
  {
    if k <= i then 0 else if line[k].x < x0 + w then line[k].x - x0 else w
  }

  // One segment further in the walk.
  lemma OneSegment(line: Line, right: nat, i: nat, k: nat, x0: nat, w: nat)
    requires IsSkyline(line, right) && Covers(line, i, x0) && i <= k && 0 < w && x0 + w <= right && k < |line| && line[k].x < x0 + w
    ensures k + 1 < |line| && 0 <= Seen(line, i, k, x0, w) < Seen(line, i, k + 1, x0, w) <= w
    ensures var seen, more := Seen(line, i, k, x0, w), Seen(line, i, k + 1, x0, w);
            && Top(line, x0, more) == Max(Top(line, x0, seen), line[k].y)
            && Area(line, x0, more) == Area(line, x0, seen) + (more - seen) * line[k].y
  {
    assert k + 1 < |line| by { assert line[|line| - 1].x == right; }
    assert line[k].x < line[k + 1].x && (k > i ==> line[i + 1].x <= line[k].x);
    var seen, more := Seen(line, i, k, x0, w), Seen(line, i, k + 1, x0, w);
    forall c | x0 + seen <= c < x0 + more ensures HeightAt(line, c) == line[k].y {
      CoveredHeight(line, k, c);
    }
    StretchOfOneHeight(line, x0, seen, more, line[k].y);
  }

  // The walk ends with the clear height.
  lemma {:induction false} ScanFindsTop(line: Line, right: nat, i: nat, k: nat, x0: nat, w: nat, t: Tally)
    requires IsSkyline(line, right) && Covers(line, i, x0) && i <= k < |line| && 0 < w && x0 + w <= right
    requires 0 <= Seen(line, i, k, x0, w) <= w && t.minY == Top(line, x0, Seen(line, i, k, x0, w))
    ensures Scan(line, k, x0, w, t).minY == Top(line, x0, w)
    decreases |line| - k
  {
    assert line[|line| - 1].x == right;
    if k + 1 < |line| && line[k].x < x0 + w {
      OneSegment(line, right, i, k, x0, w);
      ScanFindsTop(line, right, i, k + 1, x0, w, Counted(line, k, x0, w, t));
    }
  }

  // How many columns before the window are counted as visited with it: those of its first segment, if that has
  // height 0.
  function Ahead(line: Line, i: nat, x0: nat): nat
    requires i < |line| && line[i].x <= x0
  {
    if line[i].y > 0 then 0 else x0 - line[i].x
  }

  // A segment that the count reaches too early, by so many columns, does no harm if nothing is below it or it
  // rises above all before it and is not the last one.
  predicate Harmless(line: Line, k: nat, x0: nat, w: nat, ahead: nat)
    requires k + 1 < |line|
  {
    ahead > 0 && x0 + w < line[k + 1].x + ahead ==>
      line[k].y == 0 || (x0 <= line[k].x && Top(line, x0, line[k].x - x0) < line[k].y && line[k + 1].x < x0 + w)
  }

  predicate HarmlessFrom(line: Line, k: nat, x0: nat, w: nat, ahead: nat) {
    forall j :: k <= j < |line| - 1 && line[j].x < x0 + w ==> Harmless(line, j, x0, w, ahead)
  }

  // The window is counted right in spite of the columns ahead of it.
  predicate CountedRight(line: Line, i: nat, x0: nat, w: nat)
    requires i < |line| && line[i].x <= x0
  {
    HarmlessFrom(line, i + 1, x0, w, Ahead(line, i, x0))
  }

  // Before corner k: besides the part of the window seen, `over` columns are counted as visited.
  predicate InStep(line: Line, i: nat, k: nat, x0: nat, w: nat, visited: int, ahead: nat, over: nat)
    requires k < |line|
  {
    var seen := Seen(line, i, k, x0, w);
    && 0 <= seen <= w && over <= ahead && visited == seen + over
    && (ahead > 0 ==> over > 0)
    && (over < ahead ==> x0 + w <= line[k].x + ahead && w - seen <= over)
  }

  // The waste so far is right for the part seen, but for those columns up to the height so far, and for `more`.
  ghost predicate AddsUp(line: Line, i: nat, k: nat, x0: nat, w: nat, t: Tally, ahead: nat, over: nat, more: int)
    requires k < |line|
  {
    var seen := Seen(line, i, k, x0, w);
    && InStep(line, i, k, x0, w, t.visited, ahead, over) && 0 <= more
    && t.minY == Top(line, x0, seen) && t.waste == seen * t.minY - Area(line, x0, seen) + over * t.minY + more
  }

  // A segment that does not rise counts for no more than is left of the window.
  function Left(line: Line, i: nat, k: nat, x0: nat, w: nat, over: nat): nat
    requires k + 1 < |line|
  {
    var left := w - Seen(line, i, k + 1, x0, w);
    if over <= left then over else if left >= 0 then left else 0
  }

  lemma LeftInStep(line: Line, right: nat, i: nat, k: nat, x0: nat, w: nat, t: Tally, ahead: nat, over: nat)
    requires IsSkyline(line, right) && Covers(line, i, x0) && i < k && 0 < w && x0 + w <= right
    requires k + 1 < |line| && line[k].x < x0 + w && InStep(line, i, k, x0, w, t.visited, ahead, over) && line[k].y <= t.minY
    ensures var over' := Left(line, i, k, x0, w, over);
            && over' <= over && (over' < over <==> ahead > 0 && x0 + w < line[k + 1].x + ahead)
            && Counted(line, k, x0, w, t).visited == Seen(line, i, k + 1, x0, w) + over'
            && (if line[k + 1].x < x0 + w then InStep(line, i, k + 1, x0, w, Counted(line, k, x0, w, t).visited, ahead, over')
                else over' == 0)
  {
    assert line[i + 1].x <= line[k].x < line[k + 1].x;
  }

  lemma RaisedAddsUp(line: Line, right: nat, i: nat, k: nat, x0: nat, w: nat, t: Tally, ahead: nat, over: nat, more: int)
    requires IsSkyline(line, right) && Covers(line, i, x0) && i < k && 0 < w && x0 + w <= right
    requires k + 1 < |line| && line[k].x < x0 + w && AddsUp(line, i, k, x0, w, t, ahead, over, more) && t.minY < line[k].y
    ensures var t' := Counted(line, k, x0, w, t);
            if line[k + 1].x < x0 + w then AddsUp(line, i, k + 1, x0, w, t', ahead, over, more)
            else t'.waste == Waste(line, x0, w) + over * line[k].y + more
  {
    OneSegment(line, right, i, k, x0, w);
    var seen, seen' := Seen(line, i, k, x0, w), Seen(line, i, k + 1, x0, w);
    WasteRaised(t.waste - more, seen, seen', over, t.minY, line[k].y, Area(line, x0, seen));
  }

  lemma LoweredAddsUp(line: Line, right: nat, i: nat, k: nat, x0: nat, w: nat, t: Tally, ahead: nat, over: nat, more: int)
    requires IsSkyline(line, right) && Covers(line, i, x0) && i < k && 0 < w && x0 + w <= right
    requires k + 1 < |line| && line[k].x < x0 + w && AddsUp(line, i, k, x0, w, t, ahead, over, more) && line[k].y <= t.minY
    ensures var t', over' := Counted(line, k, x0, w, t), Left(line, i, k, x0, w, over);
            var more' := more + (over - over') * line[k].y;
            if line[k + 1].x < x0 + w then AddsUp(line, i, k + 1, x0, w, t', ahead, over', more')
            else t'.waste == Waste(line, x0, w) + more'
  {
    LeftInStep(line, right, i, k, x0, w, t, ahead, over);
    OneSegment(line, right, i, k, x0, w);
    var seen, seen', over' := Seen(line, i, k, x0, w), Seen(line, i, k + 1, x0, w), Left(line, i, k, x0, w, over);
    WasteAdded(t.waste - more, seen, seen', over, over', t.minY, line[k].y, Area(line, x0, seen));
    NoLess(over - over', line[k].y);
  }

  lemma NoLess(n: nat, y: nat)
    ensures n * y >= 0 && (n * y == 0 <==> n == 0 || y == 0)
  {
  }

  // Some columns taken out at height y, the others left in up to a greater one.
  lemma TakenOut(n: nat, n': nat, y: nat, top: nat)
    requires n' <= n && y <= top
    ensures 0 <= (n - n') * y && (n - n') * y + n' * top <= n * top
  {
    assert (n - n') * y <= (n - n') * top;
    assert n * top == (n - n') * top + n' * top;
  }

  // One segment further; `more'` has grown exactly if the segment does harm.
  lemma NextAddsUp(line: Line, right: nat, i: nat, k: nat, x0: nat, w: nat, t: Tally, ahead: nat, over: nat, more: int, top: nat)
      returns (over': nat, more': int)
    requires IsSkyline(line, right) && Covers(line, i, x0) && i < k && 0 < w && x0 + w <= right && Low(line, top)
    requires k + 1 < |line| && line[k].x < x0 + w && AddsUp(line, i, k, x0, w, t, ahead, over, more)
    ensures more <= more' && more' + over' * top <= more + over * top
    ensures more' == more <==> Harmless(line, k, x0, w, ahead)
    ensures var t' := Counted(line, k, x0, w, t);
            if line[k + 1].x < x0 + w then AddsUp(line, i, k + 1, x0, w, t', ahead, over', more')
            else over' == 0 && t'.waste == Waste(line, x0, w) + more'
  {
    var y, inside := line[k].y, line[k + 1].x < x0 + w;
    assert x0 <= line[k].x && line[k].x - x0 == Seen(line, i, k, x0, w) by { assert line[i + 1].x <= line[k].x; }
    if t.minY < y {
      RaisedAddsUp(line, right, i, k, x0, w, t, ahead, over, more);
      over' := if inside then over else 0;
    } else {
      LeftInStep(line, right, i, k, x0, w, t, ahead, over);
      LoweredAddsUp(line, right, i, k, x0, w, t, ahead, over, more);
      over' := Left(line, i, k, x0, w, over);
    }
    more' := more + (over - over') * y;
    NoLess(over - over', y);
    TakenOut(over, over', y, top);
  }

  // The walk never adds up too little, and too much exactly if some segment does harm.
  lemma {:induction false} ScanAddsUp(line: Line, right: nat, i: nat, k: nat, x0: nat, w: nat, t: Tally, ahead: nat, over: nat, more: int,
      top: nat)
    requires IsSkyline(line, right) && Covers(line, i, x0) && i < k && 0 < w && x0 + w <= right && Low(line, top)
    requires k + 1 < |line| && line[k].x < x0 + w && AddsUp(line, i, k, x0, w, t, ahead, over, more)
    ensures var waste := Scan(line, k, x0, w, t).waste;
            && Waste(line, x0, w) <= waste <= Waste(line, x0, w) + more + over * top
            && (waste == Waste(line, x0, w) <==> more == 0 && HarmlessFrom(line, k, x0, w, ahead))
    decreases |line| - k
  {
    assert line[|line| - 1].x == right;
    var over', more' := NextAddsUp(line, right, i, k, x0, w, t, ahead, over, more, top);
    OneMoreHarmless(line, right, k, x0, w, ahead);
    if line[k + 1].x < x0 + w {
      ScanAddsUp(line, right, i, k + 1, x0, w, Counted(line, k, x0, w, t), ahead, over', more', top);
    }
  }

  lemma OneMoreHarmless(line: Line, right: nat, k: nat, x0: nat, w: nat, ahead: nat)
    requires IsSkyline(line, right) && k + 1 < |line| && line[k].x < x0 + w
    ensures HarmlessFrom(line, k, x0, w, ahead) <==> Harmless(line, k, x0, w, ahead) && HarmlessFrom(line, k + 1, x0, w, ahead)
    ensures x0 + w <= line[k + 1].x ==> HarmlessFrom(line, k + 1, x0, w, ahead)
  {
    assert forall j :: k + 1 <= j < |line| ==> line[k + 1].x <= line[j].x;
  }

  lemma WasteRaised(waste: int, seen: int, seen': int, over: int, minY: nat, y: nat, area: nat)
    requires waste == seen * minY - area + over * minY
    ensures waste + (seen + over) * (y - minY) == seen' * y - (area + (seen' - seen) * y) + over * y
  {
  }

  lemma WasteAdded(waste: int, seen: int, seen': int, over: int, over': int, minY: nat, y: nat, area: nat)
    requires waste == seen * minY - area + over * minY
    ensures waste + (seen' + over' - seen - over) * (minY - y)
            == seen' * minY - (area + (seen' - seen) * y) + over' * minY + (over - over') * y
  {
  }

  // The total for a window is never less than its waste, nor more by the columns counted ahead of it times the
  // greatest height; and is its waste exactly if it is counted right, as every window is that starts at a
  // corner or above height 0.
  lemma TotalIsWaste(line: Line, right: nat, i: nat, x: nat, w: nat, top: nat)
    requires IsSkyline(line, right) && Covers(line, i, x) && 0 < w && x + w <= right && Low(line, top)
    ensures Waste(line, x, w) <= Total(line, x, w) <= Waste(line, x, w) + Ahead(line, i, x) * top
    ensures Total(line, x, w) == Waste(line, x, w) <==> CountedRight(line, i, x, w)
    ensures x == line[i].x || line[i].y > 0 ==> CountedRight(line, i, x, w)
  {
    assert line[|line| - 1].x == right;
    var t, ahead := Tally(0, 0, 0), Ahead(line, i, x);
    var t' := Counted(line, i, x, w, t);
    CoveringSegment(line, right, x, 0, i);
    OneSegment(line, right, i, i, x, w);
    assert Scan(line, i, x, w, t) == Scan(line, i + 1, x, w, t');
    NoLess(ahead, top);
    if line[i + 1].x < x + w {
      var over := t'.visited - (line[i + 1].x - x);
      ScanAddsUp(line, right, i, i + 1, x, w, t', ahead, over, 0, top);
      TakenOut(ahead, over, top, top);
    } else {
      assert forall j :: i + 1 <= j < |line| ==> line[i + 1].x <= line[j].x;
    }
  }

  // Of one that starts inside a stretch of height 0 more may be reported.
  lemma MoreMayBeReported()
    ensures var line := [Corner(0, 0), Corner(2, 3), Corner(8, 0xffff)];
            IsSkyline(line, 8) && Covers(line, 0, 1) && Reported(line, 1, 3) == 6 && Waste(line, 1, 3) == 3
  {
    var line := [Corner(0, 0), Corner(2, 3), Corner(8, 0xffff)];
    assert SegmentFrom(line, 1, 0) == 0;
    assert Scan(line, 2, 1, 3, Tally(3, 6, 8)) == Tally(3, 6, 8);
    assert Scan(line, 1, 1, 3, Tally(0, 0, 2)) == Tally(3, 6, 8);
    CoveredHeight(line, 0, 1);
    CoveredHeight(line, 1, 2);
    CoveredHeight(line, 1, 3);
    assert Top(line, 1, 0) == 0 && Top(line, 1, 1) == 0 && Top(line, 1, 2) == 3 && Top(line, 1, 3) == 3;
    assert Area(line, 1, 0) == 0 && Area(line, 1, 1) == 0 && Area(line, 1, 2) == 3 && Area(line, 1, 3) == 6;
  }

  // ---- best fit

  // At one height, x is chosen over x': less waste reported, or as much and not further right.
  predicate NoWorse(line: Line, w: nat, x: nat, x': nat)
    requires |line| > 0
  {
    Reported(line, x, w) < Reported(line, x', w) || (Reported(line, x, w) == Reported(line, x', w) && x <= x')
  }

  // The best of the first k corners wastes no more than any other of its height.
  ghost predicate LeastCorner(line: Line, w: nat, k: nat, b: nat, y: nat, waste: int)
    requires b < |line| && k <= |line|
  {
    && waste == Reported(line, line[b].x, w)
    && forall j :: 0 <= j < k && Top(line, line[j].x, w) == y ==> NoWorse(line, w, line[b].x, line[j].x)
  }

  // The windows of height y that end at one of the first t corners are no better than x.
  ghost predicate LeastEnding(line: Line, w: nat, t: nat, x: nat, y: nat)
    requires 0 < |line| && t <= |line|
  {
    forall j :: 0 <= j < t && w <= line[j].x && Top(line, line[j].x - w, w) == y ==> NoWorse(line, w, x, line[j].x - w)
  }

  // A window of height y that starts or ends at a corner.
  ghost predicate Candidate(line: Line, right: nat, w: nat, y: nat, x: nat)
    requires |line| > 0
  {
    && x + w <= right && Top(line, x, w) == y
    && exists j :: 0 <= j < |line| && (line[j].x == x || line[j].x == x + w)
  }

  // One of the candidates that are as low as the one chosen, and none of them is better.
  ghost predicate LeastWaste(line: Line, right: nat, w: nat, x: nat, y: nat)
    requires |line| > 0
  {
    && Candidate(line, right, w, y, x)
    && forall x': nat :: Candidate(line, right, w, y, x') ==> NoWorse(line, w, x, x')
  }

  // The walks over the corners look at every candidate.
  lemma LeastOfBoth(line: Line, right: nat, w: nat, x: nat, y: nat)
    requires |line| > 0 && Candidate(line, right, w, y, x)
    requires LeastStarting(line, right, w, x, y) && LeastEnding(line, w, |line|, x, y)
    ensures LeastWaste(line, right, w, x, y)
  {
    forall x': nat | Candidate(line, right, w, y, x') ensures NoWorse(line, w, x, x') {
      var j :| 0 <= j < |line| && (line[j].x == x' || line[j].x == x' + w);
      if line[j].x == x' + w { assert line[j].x - w == x'; }
    }
  }

  ghost predicate LeastStarting(line: Line, right: nat, w: nat, x: nat, y: nat)
    requires |line| > 0
  {
    forall j :: 0 <= j < |line| && line[j].x + w <= right && Top(line, line[j].x, w) == y ==> NoWorse(line, w, x, line[j].x)
  }

  lemma NextLeastCorner(line: Line, right: nat, w: nat, k: nat, b: nat, y: nat, waste: int)
    requires IsSkyline(line, right) && k < |line|
    ensures b < k && LeastCorner(line, w, k, b, y, waste) ==>
              && (y < Top(line, line[k].x, w) || waste <= Reported(line, line[k].x, w) ==> LeastCorner(line, w, k + 1, b, y, waste))
              && (y == Top(line, line[k].x, w) && Reported(line, line[k].x, w) < waste ==>
                    LeastCorner(line, w, k + 1, k, y, Reported(line, line[k].x, w)))
    ensures (forall j :: 0 <= j < k ==> Top(line, line[k].x, w) != Top(line, line[j].x, w))
            ==> LeastCorner(line, w, k + 1, k, Top(line, line[k].x, w), Reported(line, line[k].x, w))
  {
  }

  // The best of the first k corners under either rule.
  ghost predicate BestOfCorners(line: Line, w: nat, k: nat, h: Heuristic, height: nat, limit: nat, found: bool, b: nat, y: nat, waste: int)
    requires k <= |line|
  {
    && BestCorner(line, w, k, h, height, limit, found, b, y)
    && (found && h.BestFit? ==> LeastCorner(line, w, k, b, y, waste))
    && (!found ==> y == 0x4000_0000)
  }

  lemma CornerStep(line: Line, right: nat, w: nat, k: nat, h: Heuristic, height: nat, limit: nat, found: bool, b: nat, y: nat, waste: int)
    requires IsSkyline(line, right) && k < |line| && BestOfCorners(line, w, k, h, height, limit, found, b, y, waste)
    requires Top(line, line[k].x, w) < 0x4000_0000
    ensures var y', waste' := Top(line, line[k].x, w), Reported(line, line[k].x, w);
            if h.BottomLeft? then
              if y' < y then BestOfCorners(line, w, k + 1, h, height, limit, true, k, y', waste)
              else BestOfCorners(line, w, k + 1, h, height, limit, found, b, y, waste)
            else if y' + height <= limit && (y' < y || (y' == y && waste' < waste))
            then BestOfCorners(line, w, k + 1, h, height, limit, true, k, y', waste')
            else BestOfCorners(line, w, k + 1, h, height, limit, found, b, y, waste)
  {
    var y', waste' := Top(line, line[k].x, w), Reported(line, line[k].x, w);
    var taken := if h.BottomLeft? then y' < y else y' + height <= limit && (y' < y || (y' == y && waste' < waste));
    NextCorner(line, w, k, h, height, limit, found, b, y, taken);
    NextLeastCorner(line, right, w, k, if found then b else 0, y, waste);
  }

  lemma NextLeastEnding(line: Line, w: nat, t: nat, x: nat, y: nat)
    requires t < |line| && w <= line[t].x && LeastEnding(line, w, t, x, y)
    ensures (Top(line, line[t].x - w, w) == y ==> NoWorse(line, w, x, line[t].x - w)) ==> LeastEnding(line, w, t + 1, x, y)
    ensures NoWorse(line, w, line[t].x - w, x) ==> LeastEnding(line, w, t + 1, line[t].x - w, y)
  {
  }
}
