// The packer adds up the waste of a window in 32 bits, which large targets exceed: when the sums fit, what is
// reported when they do not, and what best fit's choice is worth.
module WasteOverflow {
  import opened Skyline
  import opened SkylineWaste

  const LIMIT := 0x8000_0000

  // So many columns up to one height and others up to the greatest are no more than all of them.
  lemma TwoParts(n: nat, y: nat, m: nat, top: nat, right: nat)
    requires n + m <= right && y <= top
    ensures 0 <= m * top && n * y + m * top <= right * top
  {
    assert n * y <= n * top;
    assert n * top + m * top == (n + m) * top <= right * top;
  }

  lemma {:induction false} AreaIsBelow(line: Line, x: nat, w: nat)
    requires |line| > 0
    ensures 0 <= Area(line, x, w) <= w * Top(line, x, w)
  {
    if w > 0 {
      AreaIsBelow(line, x, w - 1);
      AreaRaised(w - 1, Top(line, x, w - 1), HeightAt(line, x + w - 1), Top(line, x, w));
    }
  }

  lemma AreaRaised(n: nat, y: nat, height: nat, top: nat)
    requires y <= top && height <= top
    ensures n * y + height <= (n + 1) * top
  {
    assert n * y <= n * top;
  }

  lemma TopIsLow(line: Line, right: nat, x: nat, w: nat, top: nat)
    requires IsSkyline(line, right) && x + w <= right && Low(line, top)
    ensures Top(line, x, w) <= top
  {
    forall c | x <= c < x + w ensures HeightAt(line, c) <= top {
      var i := SomeSegmentCovers(line, right, c);
      CoveredHeight(line, i, c);
    }
    TopIsLeastBound(line, x, w, top);
  }

  // No total is negative or more than the whole area up to the greatest height.
  lemma TotalIsWithin(line: Line, right: nat, i: nat, x: nat, w: nat, top: nat)
    requires IsSkyline(line, right) && Covers(line, i, x) && 0 < w && x + w <= right && Low(line, top)
    ensures 0 <= Waste(line, x, w) <= Total(line, x, w) <= right * top
  {
    TotalIsWaste(line, right, i, x, w, top);
    AreaIsBelow(line, x, w);
    TopIsLow(line, right, x, w, top);
    TwoParts(w, Top(line, x, w), Ahead(line, i, x), top, right);
  }

  // The report for a window is its waste exactly if it is counted right and the waste fits.
  ghost predicate IsReport(line: Line, i: nat, x: nat, w: nat, waste: Int32)
    requires i < |line| && line[i].x <= x
  {
    && (waste == Waste(line, x, w) <==> CountedRight(line, i, x, w) && Waste(line, x, w) < LIMIT)
    && (waste == Total(line, x, w) <==> Total(line, x, w) < LIMIT)
  }

  lemma ReportedIsWaste(line: Line, right: nat, i: nat, x: nat, w: nat)
    requires IsSkyline(line, right) && Covers(line, i, x) && 0 < w && x + w <= right && right <= 0xffff && Low(line, 0xffff)
    ensures IsReport(line, i, x, w, Reported(line, x, w))
  {
    TotalIsWithin(line, right, i, x, w, 0xffff);
    TotalIsWaste(line, right, i, x, w, 0xffff);
  }

  // ---- every sum of the walk

  // No product and no sum from corner k on leaves 32 bits.
  predicate WalkFits(line: Line, k: nat, x0: int, w: int, t: Tally)
    requires k < |line|
    decreases |line| - k
  {
    k + 1 >= |line| || x0 + w <= line[k].x ||
    (var t' := Counted(line, k, x0, w, t);
     && -LIMIT <= t'.waste - t.waste < LIMIT && -LIMIT <= t'.waste < LIMIT
     && WalkFits(line, k + 1, x0, w, t'))
  }

  lemma PartIsWithin(line: Line, right: nat, i: nat, k: nat, x0: nat, w: nat, t: Tally, ahead: nat, over: nat, more: int, top: nat)
    requires IsSkyline(line, right) && 0 < w && x0 + w <= right && Low(line, top) && ahead <= x0
    requires k < |line| && AddsUp(line, i, k, x0, w, t, ahead, over, more) && more + over * top <= ahead * top
    ensures 0 <= t.waste <= right * top
  {
    var seen := Seen(line, i, k, x0, w);
    AreaIsBelow(line, x0, seen);
    TopIsLow(line, right, x0, seen, top);
    TwoParts(seen, t.minY, ahead, top, right);
    TwoParts(over, t.minY, 0, top, over);
    NoLess(over, t.minY);
  }

  lemma {:induction false} ScanFits(line: Line, right: nat, i: nat, k: nat, x0: nat, w: nat, t: Tally, ahead: nat, over: nat, more: int, top: nat)
    requires IsSkyline(line, right) && Covers(line, i, x0) && i < k && 0 < w && x0 + w <= right && Low(line, top) && ahead <= x0
    requires k + 1 < |line| && line[k].x < x0 + w && AddsUp(line, i, k, x0, w, t, ahead, over, more)
    requires more + over * top <= ahead * top && right * top < LIMIT
    requires 0 <= Waste(line, x0, w) && Waste(line, x0, w) + ahead * top <= right * top
    ensures WalkFits(line, k, x0, w, t)
    decreases |line| - k
  {
    assert line[|line| - 1].x == right;
    var t' := Counted(line, k, x0, w, t);
    var over', more' := NextAddsUp(line, right, i, k, x0, w, t, ahead, over, more, top);
    PartIsWithin(line, right, i, k, x0, w, t, ahead, over, more, top);
    if line[k + 1].x < x0 + w {
      PartIsWithin(line, right, i, k + 1, x0, w, t', ahead, over', more', top);
      ScanFits(line, right, i, k + 1, x0, w, t', ahead, over', more', top);
    }
  }

  // A target whose area is below the limit is small enough for every walk.
  lemma SmallTargetFits(line: Line, right: nat, i: nat, x: nat, w: nat, top: nat)
    requires IsSkyline(line, right) && Covers(line, i, x) && 0 < w && x + w <= right && Low(line, top) && right * top < LIMIT
    ensures WalkFits(line, i, x, w, Tally(0, 0, 0))
  {
    assert line[|line| - 1].x == right;
    var ahead, t' := Ahead(line, i, x), Counted(line, i, x, w, Tally(0, 0, 0));
    OneSegment(line, right, i, i, x, w);
    AreaIsBelow(line, x, w);
    TopIsLow(line, right, x, w, top);
    TwoParts(w, Top(line, x, w), ahead, top, right);
    if line[i + 1].x < x + w {
      var over := t'.visited - (line[i + 1].x - x);
      TakenOut(ahead, over, top, top);
      NoLess(ahead, top);
      ScanFits(line, right, i, i + 1, x, w, t', ahead, over, 0, top);
    }
  }

  // Of a window with nothing counted ahead the sums only grow.
  lemma {:induction false} ScanGrows(line: Line, right: nat, i: nat, k: nat, x0: nat, w: nat, t: Tally, top: nat)
    requires IsSkyline(line, right) && Covers(line, i, x0) && i < k && 0 < w && x0 + w <= right && Low(line, top)
    requires k + 1 < |line| && line[k].x < x0 + w && AddsUp(line, i, k, x0, w, t, 0, 0, 0) && 0 <= t.waste
    ensures t.waste <= Scan(line, k, x0, w, t).waste
    ensures WalkFits(line, k, x0, w, t) <==> Scan(line, k, x0, w, t).waste < LIMIT
    decreases |line| - k
  {
    assert line[|line| - 1].x == right;
    var t' := Counted(line, k, x0, w, t);
    var over', more' := NextAddsUp(line, right, i, k, x0, w, t, 0, 0, 0, top);
    OneSegment(line, right, i, k, x0, w);
    if t.minY < line[k].y {
      NoLess(t.visited, line[k].y - t.minY);
    } else {
      NoLess(Seen(line, i, k + 1, x0, w) - Seen(line, i, k, x0, w), t.minY - line[k].y);
    }
    if line[k + 1].x < x0 + w {
      ScanGrows(line, right, i, k + 1, x0, w, t', top);
    }
  }

  // For a window that starts at a corner or above height 0: every sum fits exactly if its waste does.
  lemma WalkFitsExactly(line: Line, right: nat, i: nat, x: nat, w: nat)
    requires IsSkyline(line, right) && Covers(line, i, x) && 0 < w && x + w <= right && Low(line, 0xffff)
    requires x == line[i].x || line[i].y > 0
    ensures WalkFits(line, i, x, w, Tally(0, 0, 0)) <==> Waste(line, x, w) < LIMIT
  {
    assert line[|line| - 1].x == right;
    TotalIsWaste(line, right, i, x, w, 0xffff);
    CoveringSegment(line, right, x, 0, i);
    OneSegment(line, right, i, i, x, w);
    var t' := Counted(line, i, x, w, Tally(0, 0, 0));
    if line[i + 1].x < x + w {
      ScanGrows(line, right, i, i + 1, x, w, t', 0xffff);
    }
  }

  // ---- best fit

  // No candidate has a smaller total, nor as small a one further left.
  ghost predicate LeastTotal(line: Line, right: nat, w: nat, x: nat, y: nat)
    requires |line| > 0
  {
    forall x': nat :: Candidate(line, right, w, y, x') ==>
      Total(line, x, w) < Total(line, x', w) || (Total(line, x, w) == Total(line, x', w) && x <= x')
  }

  // No candidate that is counted right wastes less area, nor as little further left.
  ghost predicate LeastArea(line: Line, right: nat, w: nat, x: nat, y: nat)
    requires |line| > 0
  {
    forall i: nat, x': nat :: Covers(line, i, x') && Candidate(line, right, w, y, x') && CountedRight(line, i, x', w) ==>
      Waste(line, x, w) < Waste(line, x', w) || (Waste(line, x, w) == Waste(line, x', w) && x <= x')
  }

  ghost predicate AllFit(line: Line, right: nat, w: nat, y: nat)
    requires |line| > 0
  {
    forall x: nat :: Candidate(line, right, w, y, x) ==> Total(line, x, w) < LIMIT
  }

  ghost predicate NoneFits(line: Line, right: nat, w: nat, y: nat)
    requires |line| > 0
  {
    forall x: nat :: Candidate(line, right, w, y, x) ==> LIMIT <= Total(line, x, w)
  }

  lemma ReportedOf(line: Line, right: nat, x: nat, w: nat)
    requires IsSkyline(line, right) && 0 < w && x + w <= right && right <= 0xffff && Low(line, 0xffff)
    ensures Total(line, x, w) < LIMIT ==> Reported(line, x, w) == Total(line, x, w) >= 0
    ensures LIMIT <= Total(line, x, w) ==> Reported(line, x, w) == Total(line, x, w) - 0x1_0000_0000 < 0
  {
    var i := SomeSegmentCovers(line, right, x);
    TotalIsWithin(line, right, i, x, w, 0xffff);
  }

  // Best fit's choice has the least total exactly if the totals of all candidates fit, or those of none.
  lemma LeastTotalExactly(line: Line, right: nat, w: nat, x: nat, y: nat)
    requires IsSkyline(line, right) && 0 < w && right <= 0xffff && Low(line, 0xffff) && LeastWaste(line, right, w, x, y)
    ensures LeastTotal(line, right, w, x, y) <==> AllFit(line, right, w, y) || NoneFits(line, right, w, y)
  {
    forall x': nat | Candidate(line, right, w, y, x')
      ensures Total(line, x', w) < LIMIT ==> Reported(line, x', w) == Total(line, x', w) >= 0
      ensures LIMIT <= Total(line, x', w) ==> Reported(line, x', w) == Total(line, x', w) - 0x1_0000_0000 < 0
    {
      ReportedOf(line, right, x', w);
    }
    if !AllFit(line, right, w, y) && !NoneFits(line, right, w, y) {
      var a: nat :| Candidate(line, right, w, y, a) && Total(line, a, w) < LIMIT;
      var b: nat :| Candidate(line, right, w, y, b) && LIMIT <= Total(line, b, w);
      assert NoWorse(line, w, x, b);
    } else {
      forall x': nat | Candidate(line, right, w, y, x')
        ensures Total(line, x, w) < Total(line, x', w) || (Total(line, x, w) == Total(line, x', w) && x <= x')
      {
        assert NoWorse(line, w, x, x');
      }
    }
  }

  // And then it wastes the least area of all that are counted right.
  lemma LeastTotalIsLeastArea(line: Line, right: nat, w: nat, x: nat, y: nat)
    requires IsSkyline(line, right) && 0 < w && Low(line, 0xffff) && x + w <= right && LeastTotal(line, right, w, x, y)
    ensures LeastArea(line, right, w, x, y)
  {
    var i := SomeSegmentCovers(line, right, x);
    TotalIsWaste(line, right, i, x, w, 0xffff);
    forall i': nat, x': nat | Covers(line, i', x') && Candidate(line, right, w, y, x') && CountedRight(line, i', x', w)
      ensures Waste(line, x, w) < Waste(line, x', w) || (Waste(line, x, w) == Waste(line, x', w) && x <= x')
    {
      TotalIsWaste(line, right, i', x', w, 0xffff);
    }
  }

  // On a target whose area is below the limit best fit's choice wastes the least.
  lemma SmallTargetWastesLeast(line: Line, right: nat, top: nat, w: nat, x: nat, y: nat)
    requires IsSkyline(line, right) && 0 < w && right <= 0xffff && Low(line, top) && top <= 0xffff && right * top < LIMIT
    requires LeastWaste(line, right, w, x, y)
    ensures LeastTotal(line, right, w, x, y) && LeastArea(line, right, w, x, y)
  {
    forall x': nat | Candidate(line, right, w, y, x') ensures Total(line, x', w) < LIMIT {
      var i := SomeSegmentCovers(line, right, x');
      TotalIsWithin(line, right, i, x', w, top);
    }
    LeastTotalExactly(line, right, w, x, y);
    LeastTotalIsLeastArea(line, right, w, x, y);
  }

  // A place for a window of w columns: as low as any, bottom left leftmost, best fit where the least waste is
  // reported, which is the least there is if the area of the target is below the limit.
  ghost predicate Chosen(line: Line, right: nat, limit: nat, w: nat, height: nat, h: Heuristic, x: nat, y: nat)
    requires |line| > 0
  {
    && LowestFit(line, right, limit, w, height, h, x, y)
    && (h.BestFit? ==> LeastWaste(line, right, w, x, y) && (right * limit < LIMIT ==> LeastArea(line, right, w, x, y)))
  }

  lemma FoundIsChosen(line: Line, right: nat, limit: nat, w: nat, height: nat, h: Heuristic, found: bool, i: nat, x: nat, y: nat)
    requires IsSkyline(line, right) && 0 < w && right <= 0xffff && limit <= 0xffff && Low(line, limit)
    requires BestPosition(line, right, limit, w, height, h, found, i, x, y)
    requires found && h.BestFit? ==> LeastWaste(line, right, w, x, y)
    ensures found && y + height <= limit ==> Chosen(line, right, limit, w, height, h, x, y)
    ensures !found || y + height > limit ==> NoRoom(line, right, limit, w, height)
  {
    BestPositionDecides(line, right, limit, w, height, h, found, i, x, y);
    if found && h.BestFit? && right * limit < LIMIT { SmallTargetWastesLeast(line, right, limit, w, x, y); }
  }

  // ---- a target too large

  // The skyline after a box of 32000 by 65100 has been packed into a target of 65535 by 65535.
  const LARGE: Line := [Corner(0, 65100), Corner(32000, 0), Corner(65535, 65535)]

  // A window 64980 columns wide is as low at 0 as at 555. At 0 it wastes less, but what is reported at 555 is
  // negative, and so that is best fit's choice.
  lemma LargeTarget(line: Line, w: nat)
    requires line == LARGE && w == 64980
    ensures Total(line, 0, w) == Waste(line, 0, w) == 2146998000 == Reported(line, 0, w)
    ensures Total(line, 555, w) == Waste(line, 555, w) == 2183128500 && Reported(line, 555, w) == -2111838796
    ensures forall x: nat, y: nat :: LeastWaste(line, 65535, w, x, y) <==> x == 555 && y == 65100
    ensures !NoRoom(line, 65535, 65535, w, 400)
  {
    LargeTotals(line, w);
    LargeTops(line, w);
    TotalIsWaste(line, 65535, 0, 0, w, 0xffff);
    TotalIsWaste(line, 65535, 0, 555, w, 0xffff);
    BetterOfTwo(line, 65535, w, 65100);
    assert Top(line, 0, w) + 400 <= 65535;
  }

  // One raised stretch from 0, and a window that reaches beyond it: two candidates.
  lemma BetterOfTwo(line: Line, right: nat, w: nat, y: nat)
    requires |line| == 3 && line[0].x == 0 && line[1].x < w < right && right < line[1].x + w && line[2].x == right
    requires Top(line, 0, w) == y == Top(line, right - w, w) && Reported(line, right - w, w) < Reported(line, 0, w)
    ensures forall x': nat, y': nat :: LeastWaste(line, right, w, x', y') <==> x' == right - w && y' == y
  {
    assert line[2].x == right - w + w;
    assert Candidate(line, right, w, y, 0) && Candidate(line, right, w, y, right - w);
    forall x': nat, y': nat ensures Candidate(line, right, w, y', x') <==> (x' == 0 || x' == right - w) && y' == y {
    }
    assert NoWorse(line, w, right - w, 0) && !NoWorse(line, w, 0, right - w);
  }

  // On a flat skyline nothing is wasted, so the choice is the left edge.
  lemma FlatChoice(line: Line, right: nat, limit: nat, w: nat, height: nat)
    requires |line| == 2 && line[0] == Corner(0, 0) && line[1].x == right <= 0xffff && line[1].y <= 0xffff
    requires 0 < w <= right && height <= limit
    ensures !NoRoom(line, right, limit, w, height)
    ensures forall x: nat, y: nat :: LeastWaste(line, right, w, x, y) ==> x == 0 && y == 0
  {
    forall x: nat | x + w <= right ensures Top(line, x, w) == 0 && Reported(line, x, w) == 0 {
      var i := SomeSegmentCovers(line, right, x);
      TopIsLow(line, right, x, w, 0);
      TotalIsWithin(line, right, i, x, w, 0);
    }
    assert Top(line, 0, w) + height <= limit;
    assert Candidate(line, right, w, 0, 0);
    forall x: nat, y: nat | LeastWaste(line, right, w, x, y) ensures x == 0 && y == 0 {
      assert NoWorse(line, w, x, 0);
    }
  }

  lemma LargeIsPlaced(i: nat)
    requires Covers([Corner(0, 0), Corner(65535, 65535)], i, 0)
    ensures LARGE == Placed([Corner(0, 0), Corner(65535, 65535)], i, 0, 32000, 65100)
  {
  }

  lemma LargeTops(line: Line, w: nat)
    requires line == LARGE && w == 64980
    ensures IsSkyline(line, 65535) && Low(line, 0xffff) && Covers(line, 0, 0) && Covers(line, 0, 555)
    ensures Top(line, 0, w) == 65100 == Top(line, 555, w)
  {
    LargeTotals(line, w);
    ScanFindsTop(line, 65535, 0, 0, 0, w, Tally(0, 0, 0));
    ScanFindsTop(line, 65535, 0, 0, 555, w, Tally(0, 0, 0));
  }

  lemma LargeTotals(line: Line, w: nat)
    requires line == LARGE && w == 64980
    ensures Scan(line, 0, 0, w, Tally(0, 0, 0)) == Tally(65100, 2146998000, 64980)
    ensures Scan(line, 0, 555, w, Tally(0, 0, 0)) == Tally(65100, 2183128500, 64980)
    ensures SegmentFrom(line, 0, 0) == 0 && SegmentFrom(line, 555, 0) == 0
  {
    var s, t := Tally(65100, 0, 32000), Tally(65100, 0, 31445);
    assert Counted(line, 0, 0, w, Tally(0, 0, 0)) == s && Counted(line, 0, 555, w, Tally(0, 0, 0)) == t;
    assert Counted(line, 1, 0, w, s) == Tally(65100, 2146998000, 64980);
    assert Scan(line, 1, 0, w, s) == Scan(line, 2, 0, w, Tally(65100, 2146998000, 64980));
    assert Counted(line, 1, 555, w, t) == Tally(65100, 2183128500, 64980);
    assert Scan(line, 1, 555, w, t) == Scan(line, 2, 555, w, Tally(65100, 2183128500, 64980));
  }
}
