// The skyline: the corners at which the upper edge of everything packed so far changes height, from
// x = 0 to a sentinel at the right edge of the target.
module Skyline {
  datatype Corner = Corner(x: nat, y: nat)

  type Line = seq<Corner>

  predicate IsSkyline(line: Line, width: nat) {
    && |line| >= 2 && line[0].x == 0 && line[|line| - 1].x == width
    && forall i, j :: 0 <= i < j < |line| ==> line[i].x < line[j].x
  }

  // Nothing but the sentinel is higher than y.
  predicate Low(line: Line, y: nat) {
    forall i :: 0 <= i < |line| - 1 ==> line[i].y <= y
  }

  // The segment that covers column c.
  predicate Covers(line: Line, i: nat, c: int) {
    i + 1 < |line| && line[i].x <= c < line[i + 1].x
  }

  function HeightAt(line: Line, c: nat): nat
    requires |line| > 0
  {
    if |line| == 1 || c < line[1].x then line[0].y else HeightAt(line[1..], c)
  }

  // The least height clear of the skyline over w columns from x.
  function Top(line: Line, x: nat, w: nat): nat
    requires |line| > 0
  {
    if w == 0 then 0 else Max(Top(line, x, w - 1), HeightAt(line, x + w - 1))
  }

  function Max(a: nat, b: nat): nat { if a < b then b else a }

  // The area below the skyline over w columns from x.
  function Area(line: Line, x: nat, w: nat): nat
    requires |line| > 0
  {
    if w == 0 then 0 else Area(line, x, w - 1) + HeightAt(line, x + w - 1)
  }

  lemma {:induction false} CoveredHeight(line: Line, i: nat, c: nat)
    requires Covers(line, i, c)
    requires forall a, b :: 0 <= a < b < |line| ==> line[a].x < line[b].x
    ensures HeightAt(line, c) == line[i].y
  {
    if i > 0 { CoveredHeight(line[1..], i - 1, c); }
  }

  lemma {:induction false} SomeSegmentCovers(line: Line, width: nat, c: nat) returns (i: nat)
    requires IsSkyline(line, width) && c < width
    ensures Covers(line, i, c)
  {
    i := 0;
    while line[i + 1].x <= c
      invariant i + 1 < |line| && line[i].x <= c
    {
      i := i + 1;
    }
  }

  // Top is a maximum: an upper bound, and the least one.
  lemma {:induction false} TopIsLeastBound(line: Line, x: nat, w: nat, y: nat)
    requires |line| > 0
    ensures forall c :: x <= c < x + w ==> HeightAt(line, c) <= Top(line, x, w)
    ensures (forall c :: x <= c < x + w ==> HeightAt(line, c) <= y) ==> Top(line, x, w) <= y
  {
    if w > 0 { TopIsLeastBound(line, x, w - 1, y); }
  }

  // A stretch of equal height raises Top to at least that height.
  lemma {:induction false} StretchOfOneHeight(line: Line, x: nat, w: nat, more: nat, height: nat)
    requires |line| > 0 && w < more
    requires forall c :: x + w <= c < x + more ==> HeightAt(line, c) == height
    ensures Top(line, x, more) == Max(Top(line, x, w), height)
    ensures Area(line, x, more) == Area(line, x, w) + (more - w) * height
    decreases more
  {
    assert HeightAt(line, x + more - 1) == height;
    if w + 1 < more {
      StretchOfOneHeight(line, x, w, more - 1, height);
      OneMore(more - w, height);
    }
  }

  lemma OneMore(n: int, height: int)
    ensures n * height == (n - 1) * height + height
  {
  }

  // Sliding a window left to the corner of its first segment never makes it higher.
  lemma CornerIsNoHigher(line: Line, width: nat, i: nat, x: nat, w: nat)
    requires IsSkyline(line, width) && Covers(line, i, x) && w > 0
    ensures Top(line, line[i].x, w) <= Top(line, x, w)
  {
    forall c | line[i].x <= c < line[i].x + w
      ensures HeightAt(line, c) <= Top(line, x, w)
    {
      TopIsLeastBound(line, x, w, 0);
      if c < x {
        CoveredHeight(line, i, c);
        CoveredHeight(line, i, x);
      }
    }
    TopIsLeastBound(line, line[i].x, w, Top(line, x, w));
  }

  // ---- putting a rectangle on the skyline

  // The first corner, from s on, whose segment reaches beyond `right`.
  function Kept(line: Line, s: nat, right: nat): (j: nat)
    requires s < |line|
    ensures s <= j < |line|
    decreases |line| - s
  {
    if s + 1 < |line| && line[s + 1].x <= right then Kept(line, s + 1, right) else s
  }

  lemma {:induction false} KeptIsLast(line: Line, s: nat, right: nat)
    requires s < |line|
    ensures var j := Kept(line, s, right);
            && (forall k :: s < k <= j ==> line[k].x <= right)
            && (j + 1 < |line| ==> right < line[j + 1].x)
    decreases |line| - s
  {
    if s + 1 < |line| && line[s + 1].x <= right { KeptIsLast(line, s + 1, right); }
  }

  // What makes a corner the kept one.
  ghost predicate IsKept(line: Line, s: nat, right: nat, k: nat) {
    && s <= k < |line|
    && (forall j :: s < j <= k ==> line[j].x <= right)
    && (k + 1 < |line| ==> right < line[k + 1].x)
  }

  lemma {:induction false} KeptIsUnique(line: Line, s: nat, right: nat, k: nat)
    requires IsKept(line, s, right, k)
    ensures k == Kept(line, s, right)
    decreases |line| - s
  {
    if s < k { KeptIsUnique(line, s + 1, right, k); }
  }

  function First(line: Line, i: nat, x: nat): nat
    requires i < |line|
  {
    if line[i].x < x then i + 1 else i
  }

  // Corners s to j replaced by the start of the raised stretch and what remains of segment j.
  function Spliced(line: Line, s: nat, j: nat, x: nat, right: nat, top: nat): Line
    requires s <= j < |line|
  {
    line[..s] + [Corner(x, top), Corner(Max(line[j].x, right), line[j].y)] + line[j + 1..]
  }

  // The skyline once [x, x + w) has been raised to `top`, starting in segment i.
  function Placed(line: Line, i: nat, x: nat, w: nat, top: nat): Line
    requires Covers(line, i, x)
  {
    var s := First(line, i, x);
    Spliced(line, s, Kept(line, s, x + w), x, x + w, top)
  }

  // Where each corner of the new skyline comes from.
  lemma SplicedCorner(line: Line, s: nat, j: nat, x: nat, right: nat, top: nat, k: nat)
    requires s <= j < |line|
    ensures var placed := Spliced(line, s, j, x, right, top);
            && |placed| == |line| + 1 + s - j
            && (k < |placed| ==>
                  placed[k] == if k < s then line[k]
                               else if k == s then Corner(x, top)
                               else if k == s + 1 then Corner(Max(line[j].x, right), line[j].y)
                               else line[k + j - s - 1])
  {
  }

  // A stretch that starts right of corner s - 1, not right of corner s or of the raised stretch's end.
  ghost predicate Splices(line: Line, width: nat, s: nat, j: nat, x: nat, right: nat) {
    && IsSkyline(line, width) && IsKept(line, s, right, j) && x < right <= width
    && (s > 0 ==> line[s - 1].x < x) && (s == 0 ==> x == 0) && x <= Max(line[s].x, x)
  }

  lemma CoveredSplices(line: Line, width: nat, i: nat, x: nat, w: nat)
    requires IsSkyline(line, width) && Covers(line, i, x) && w > 0 && x + w <= width
    ensures Splices(line, width, First(line, i, x), Kept(line, First(line, i, x), x + w), x, x + w)
    ensures x <= line[First(line, i, x)].x
  {
    KeptIsLast(line, First(line, i, x), x + w);
  }

  lemma SplicedIsSkyline(line: Line, width: nat, s: nat, j: nat, x: nat, right: nat, top: nat)
    requires Splices(line, width, s, j, x, right)
    ensures IsSkyline(Spliced(line, s, j, x, right, top), width)
  {
    var placed := Spliced(line, s, j, x, right, top);
    SplicedCorner(line, s, j, x, right, top, 0);
    SplicedCorner(line, s, j, x, right, top, |placed| - 1);
    forall a | 0 <= a < |placed| - 1 ensures placed[a].x < placed[a + 1].x {
      SplicedCorner(line, s, j, x, right, top, a);
      SplicedCorner(line, s, j, x, right, top, a + 1);
    }
    forall a, b | 0 <= a < b < |placed| ensures placed[a].x < placed[b].x {
      StepsIncrease(placed, a, b);
    }
  }

  lemma {:induction false} StepsIncrease(line: Line, a: nat, b: nat)
    requires a < b < |line| && forall k :: 0 <= k < |line| - 1 ==> line[k].x < line[k + 1].x
    ensures line[a].x < line[b].x
    decreases b - a
  {
    if a + 1 < b { StepsIncrease(line, a + 1, b); }
  }

  lemma {:induction false} PlacedIsSkyline(line: Line, width: nat, i: nat, x: nat, w: nat, top: nat)
    requires IsSkyline(line, width) && Covers(line, i, x) && w > 0 && x + w <= width
    ensures IsSkyline(Placed(line, i, x, w, top), width)
  {
    CoveredSplices(line, width, i, x, w);
    var s := First(line, i, x);
    var j := Kept(line, s, x + w);
    SplicedIs(line, width, s, j, x, x + w, top, Placed(line, i, x, w, top));
  }

  lemma SplicedIs(line: Line, width: nat, s: nat, j: nat, x: nat, right: nat, top: nat, placed: Line)
    requires Splices(line, width, s, j, x, right) && placed == Spliced(line, s, j, x, right, top)
    ensures IsSkyline(placed, width)
  {
    SplicedIsSkyline(line, width, s, j, x, right, top);
  }

  lemma PlacedIsLow(line: Line, height: nat, i: nat, x: nat, w: nat, top: nat, next: Line)
    requires Low(line, height) && Covers(line, i, x) && top <= height && next == Placed(line, i, x, w, top)
    ensures Low(next, height)
  {
    var s := First(line, i, x);
    forall k | 0 <= k < |next| - 1 ensures next[k].y <= height {
      SplicedCorner(line, s, Kept(line, s, x + w), x, x + w, top, k);
    }
  }

  lemma SplicedLeft(line: Line, width: nat, s: nat, j: nat, x: nat, right: nat, top: nat, k: nat, c: nat)
    requires Splices(line, width, s, j, x, right) && Covers(line, k, c) && c < x <= line[s].x
    ensures HeightAt(Spliced(line, s, j, x, right, top), c) == HeightAt(line, c)
  {
    assert k < s;
    SplicedIsSkyline(line, width, s, j, x, right, top);
    SplicedCorner(line, s, j, x, right, top, k);
    SplicedCorner(line, s, j, x, right, top, k + 1);
    SameHeight(line, width, k, Spliced(line, s, j, x, right, top), k, c);
  }

  lemma SplicedMiddle(line: Line, width: nat, s: nat, j: nat, x: nat, right: nat, top: nat, c: nat)
    requires Splices(line, width, s, j, x, right) && x <= c < Max(line[j].x, right)
    ensures HeightAt(Spliced(line, s, j, x, right, top), c) == top
  {
    SplicedIsSkyline(line, width, s, j, x, right, top);
    SplicedCorner(line, s, j, x, right, top, s);
    SplicedCorner(line, s, j, x, right, top, s + 1);
    CoveredHeight(Spliced(line, s, j, x, right, top), s, c);
  }

  lemma SplicedRight(line: Line, width: nat, s: nat, j: nat, x: nat, right: nat, top: nat, k: nat, c: nat)
    requires Splices(line, width, s, j, x, right) && Covers(line, k, c) && Max(line[j].x, right) <= c
    ensures HeightAt(Spliced(line, s, j, x, right, top), c) == HeightAt(line, c)
  {
    assert k >= j;
    SplicedIsSkyline(line, width, s, j, x, right, top);
    SplicedCorner(line, s, j, x, right, top, k + s + 1 - j);
    SplicedCorner(line, s, j, x, right, top, k + s + 2 - j);
    SameHeight(line, width, k, Spliced(line, s, j, x, right, top), k + s + 1 - j, c);
  }

  lemma SplicedHeights(line: Line, width: nat, s: nat, j: nat, x: nat, right: nat, top: nat, c: nat)
    requires Splices(line, width, s, j, x, right) && x <= line[s].x && c < width
    ensures HeightAt(Spliced(line, s, j, x, right, top), c) == if x <= c < Max(line[j].x, right) then top else HeightAt(line, c)
  {
    var k := SomeSegmentCovers(line, width, c);
    if c < x {
      SplicedLeft(line, width, s, j, x, right, top, k, c);
    } else if c < Max(line[j].x, right) {
      SplicedMiddle(line, width, s, j, x, right, top, c);
    } else {
      SplicedRight(line, width, s, j, x, right, top, k, c);
    }
  }

  // Columns left of the rectangle keep their height, its own columns end at `top`, and the columns on
  // the right keep theirs, except for what remains of the first segment when the rectangle ends inside
  // it: that too is raised.
  lemma PlacedHeights(line: Line, width: nat, i: nat, x: nat, w: nat, top: nat, c: nat)
    requires IsSkyline(line, width) && Covers(line, i, x) && w > 0 && x + w <= width && c < width
    ensures var raised := Max(x + w, line[First(line, i, x)].x);
            HeightAt(Placed(line, i, x, w, top), c) == if x <= c < raised then top else HeightAt(line, c)
  {
    var s := First(line, i, x);
    var j := Kept(line, s, x + w);
    CoveredSplices(line, width, i, x, w);
    KeptIsLast(line, s, x + w);
    assert Max(x + w, line[s].x) == Max(line[j].x, x + w);
    SplicedHeights(line, width, s, j, x, x + w, top, c);
  }

  lemma SameHeight(a: Line, width: nat, i: nat, b: Line, j: nat, c: nat)
    requires IsSkyline(a, width) && IsSkyline(b, width) && Covers(a, i, c) && Covers(b, j, c) && a[i].y == b[j].y
    ensures HeightAt(a, c) == HeightAt(b, c)
  {
    CoveredHeight(a, i, c);
    CoveredHeight(b, j, c);
  }

  // Distinct corner positions are at most one more than the columns.
  lemma {:induction false} CornersAreFew(line: Line, width: nat)
    requires IsSkyline(line, width)
    ensures |line| <= width + 1
  {
    forall i | 0 <= i < |line| ensures line[i].x >= i { CornerBeyondIndex(line, i); }
  }

  lemma {:induction false} CornerBeyondIndex(line: Line, i: nat)
    requires i < |line| && forall a, b :: 0 <= a < b < |line| ==> line[a].x < line[b].x
    ensures line[i].x >= i
  {
    if i > 0 { CornerBeyondIndex(line, i - 1); }
  }

  // ---- what has been packed

  datatype Box = Box(x: nat, y: nat, w: nat, h: nat)

  predicate Apart(a: Box, b: Box) {
    a.x + a.w <= b.x || b.x + b.w <= a.x || a.y + a.h <= b.y || b.y + b.h <= a.y
  }

  ghost predicate Packing(boxes: seq<Box>, width: nat, height: nat) {
    && (forall i :: 0 <= i < |boxes| ==>
          boxes[i].w > 0 && boxes[i].h > 0 && boxes[i].x + boxes[i].w <= width && boxes[i].y + boxes[i].h <= height)
    && (forall i, j :: 0 <= i < j < |boxes| ==> Apart(boxes[i], boxes[j]))
  }

  // Every packed box lies below the skyline.
  ghost predicate Below(boxes: seq<Box>, line: Line)
    requires |line| > 0
  {
    forall i, c :: 0 <= i < |boxes| && boxes[i].x <= c < boxes[i].x + boxes[i].w ==>
      boxes[i].y + boxes[i].h <= HeightAt(line, c)
  }

  lemma ApartFromAll(boxes: seq<Box>, line: Line, width: nat, height: nat, box: Box, clear: nat)
    requires |line| > 0 && Packing(boxes, width, height) && Below(boxes, line)
    requires box.w > 0 && box.h > 0 && box.x + box.w <= width && box.y + box.h <= height
    requires box.w <= clear && Top(line, box.x, clear) <= box.y
    ensures Packing(boxes + [box], width, height)
  {
    TopIsLeastBound(line, box.x, clear, box.y);
    forall k | 0 <= k < |boxes| ensures Apart(boxes[k], box) {
      if boxes[k].x < box.x + box.w && box.x < boxes[k].x + boxes[k].w {
        var c := Max(boxes[k].x, box.x);
        assert boxes[k].y + boxes[k].h <= HeightAt(line, c) <= box.y;
      }
    }
  }

  lemma BelowHigher(boxes: seq<Box>, line: Line, next: Line, width: nat, box: Box)
    requires |line| > 0 && |next| > 0 && Below(boxes, line)
    requires forall i :: 0 <= i < |boxes| ==> boxes[i].x + boxes[i].w <= width
    requires forall c :: 0 <= c < width ==> HeightAt(line, c) <= HeightAt(next, c)
    requires forall c :: box.x <= c < box.x + box.w ==> box.y + box.h <= HeightAt(next, c)
    ensures Below(boxes + [box], next)
  {
  }

  lemma HigherAfter(line: Line, width: nat, i: nat, box: Box, clear: nat, c: nat)
    requires IsSkyline(line, width) && Covers(line, i, box.x) && c < width
    requires box.w > 0 && box.x + box.w <= width && box.w <= clear && Top(line, box.x, clear) <= box.y
    requires line[First(line, i, box.x)].x <= box.x + clear
    ensures HeightAt(line, c) <= HeightAt(Placed(line, i, box.x, box.w, box.y + box.h), c)
  {
    PlacedHeights(line, width, i, box.x, box.w, box.y + box.h, c);
    TopIsLeastBound(line, box.x, clear, box.y);
  }

  lemma HigherEverywhere(line: Line, width: nat, i: nat, box: Box, clear: nat, next: Line)
    requires IsSkyline(line, width) && Covers(line, i, box.x) && |next| > 0
    requires box.w > 0 && box.x + box.w <= width && box.w <= clear && Top(line, box.x, clear) <= box.y
    requires line[First(line, i, box.x)].x <= box.x + clear
    requires next == Placed(line, i, box.x, box.w, box.y + box.h)
    ensures forall c :: 0 <= c < width ==> HeightAt(line, c) <= HeightAt(next, c)
    ensures forall c :: box.x <= c < box.x + box.w ==> box.y + box.h <= HeightAt(next, c)
  {
    forall c | 0 <= c < width ensures HeightAt(line, c) <= HeightAt(next, c) {
      HigherAfter(line, width, i, box, clear, c);
    }
    forall c | box.x <= c < box.x + box.w ensures box.y + box.h <= HeightAt(next, c) {
      PlacedHeights(line, width, i, box.x, box.w, box.y + box.h, c);
    }
  }

  // A box put on top of the skyline overlaps nothing below it, and leaves everything below.
  lemma {:induction false} BoxOnTop(boxes: seq<Box>, line: Line, width: nat, height: nat, i: nat, box: Box, clear: nat, next: Line)
    requires IsSkyline(line, width) && Covers(line, i, box.x)
    requires Packing(boxes, width, height) && Below(boxes, line)
    requires box.w > 0 && box.h > 0 && box.x + box.w <= width && box.y + box.h <= height
    requires box.w <= clear && Top(line, box.x, clear) <= box.y
    requires line[First(line, i, box.x)].x <= box.x + clear
    requires next == Placed(line, i, box.x, box.w, box.y + box.h)
    ensures Packing(boxes + [box], width, height)
    ensures IsSkyline(next, width) && Below(boxes + [box], next)
  {
    ApartFromAll(boxes, line, width, height, box, clear);
    PlacedIsSkyline(line, width, i, box.x, box.w, box.y + box.h);
    HigherEverywhere(line, width, i, box, clear, next);
    BelowHigher(boxes, line, next, width, box);
  }

  // ---- the best position

  // No window of w columns inside the target has a clear height below y.
  ghost predicate NoneLower(line: Line, width: nat, w: nat, y: nat)
    requires |line| > 0
  {
    forall x :: 0 <= x && x + w <= width ==> y <= Top(line, x, w)
  }

  // Every window further left is strictly higher than y.
  ghost predicate HigherLeftOf(line: Line, x: nat, w: nat, y: nat)
    requires |line| > 0
  {
    forall x' :: 0 <= x' < x ==> y < Top(line, x', w)
  }

  // It is enough to look at windows that start at a corner.
  lemma CornersSuffice(line: Line, width: nat, w: nat, y: nat)
    requires IsSkyline(line, width) && w > 0
    requires forall i :: 0 <= i < |line| && line[i].x + w <= width ==> y <= Top(line, line[i].x, w)
    ensures NoneLower(line, width, w, y)
  {
    forall x | 0 <= x && x + w <= width ensures y <= Top(line, x, w) {
      var i := SomeSegmentCovers(line, width, x);
      CornerIsNoHigher(line, width, i, x, w);
    }
  }

  lemma CornersSufficeLeft(line: Line, width: nat, w: nat, y: nat, x: nat)
    requires IsSkyline(line, width) && w > 0 && x <= width
    requires forall i :: 0 <= i < |line| && line[i].x < x ==> y < Top(line, line[i].x, w)
    ensures HigherLeftOf(line, x, w, y)
  {
    forall x' | 0 <= x' < x ensures y < Top(line, x', w) {
      var i := SomeSegmentCovers(line, width, x');
      CornerIsNoHigher(line, width, i, x', w);
    }
  }

  datatype Heuristic = BottomLeft | BestFit

  // Best fit considers only positions that fit vertically; bottom left finds the lowest and lets the
  // caller check.
  predicate Considered(h: Heuristic, height: nat, limit: nat, y: nat) {
    h.BottomLeft? || y + height <= limit
  }

  // Among the first k corners, b is the best: the lowest one considered and, bottom left, the first
  // such. Nothing is found only if nothing is to be considered.
  ghost predicate BestCorner(line: Line, w: nat, k: nat, h: Heuristic, height: nat, limit: nat, found: bool, b: nat, y: nat) {
    && k <= |line| && |line| > 0
    && (found ==> b < k && y == Top(line, line[b].x, w) && Considered(h, height, limit, y))
    && (forall j :: 0 <= j < k && Considered(h, height, limit, Top(line, line[j].x, w)) ==>
          found && y <= Top(line, line[j].x, w))
    && (found && h.BottomLeft? ==> forall j :: 0 <= j < b ==> y < Top(line, line[j].x, w))
  }

  // One more corner: it is taken when it is considered and better, passed over when it is not.
  lemma NextCorner(line: Line, w: nat, k: nat, h: Heuristic, height: nat, limit: nat, found: bool, b: nat, y: nat, taken: bool)
    requires BestCorner(line, w, k, h, height, limit, found, b, y) && k < |line|
    requires var t := Top(line, line[k].x, w);
             if taken then Considered(h, height, limit, t) && (found ==> t < y || (h.BestFit? && t == y))
             else Considered(h, height, limit, t) ==> found && y <= t
    ensures BestCorner(line, w, k + 1, h, height, limit, found || taken,
                       if taken then k else b, if taken then Top(line, line[k].x, w) else y)
  {
  }

  lemma BestCornerIsBest(line: Line, right: nat, w: nat, k: nat, h: Heuristic, height: nat, limit: nat, found: bool, b: nat, y: nat)
    requires IsSkyline(line, right) && 0 < w <= right && height <= limit
    requires BestCorner(line, w, k, h, height, limit, found, b, y)
    requires k < |line| && line[k].x + w > right
    ensures found ==> NoneLower(line, right, w, y)
    ensures !found ==> h.BestFit? && NoneLower(line, right, w, limit - height + 1)
    ensures found && h.BottomLeft? ==> HigherLeftOf(line, line[b].x, w, y)
  {
    assert 0 < k && Considered(h, height, limit, Top(line, line[0].x, w)) ==> found;
    forall i | 0 <= i < |line| && line[i].x + w <= right
      ensures if found then y <= Top(line, line[i].x, w) else limit - height + 1 <= Top(line, line[i].x, w)
    {
      assert i < k;
    }
    if found {
      CornersSuffice(line, right, w, y);
      if h.BottomLeft? {
        forall i | 0 <= i < |line| && line[i].x < line[b].x ensures y < Top(line, line[i].x, w) { assert i < b; }
        CornersSufficeLeft(line, right, w, y, line[b].x);
      }
    } else {
      CornersSuffice(line, right, w, limit - height + 1);
    }
  }

  // A window of w columns from x, in segment i, whose clear height is y, and which ends no earlier than
  // the next corner unless it starts at one.
  ghost predicate Placeable(line: Line, right: nat, w: nat, i: nat, x: nat, y: nat) {
    && Covers(line, i, x) && x + w <= right && y == Top(line, x, w)
    && line[First(line, i, x)].x <= x + w
  }

  // What the search promises: the position is lowest, bottom left also leftmost; and nothing found means
  // that no window leaves room for the height.
  ghost predicate BestPosition(line: Line, right: nat, limit: nat, w: nat, height: nat, h: Heuristic, found: bool, i: nat, x: nat, y: nat)
    requires |line| > 0
  {
    && (found ==> Placeable(line, right, w, i, x, y) && NoneLower(line, right, w, y))
    && (found && h.BottomLeft? ==> HigherLeftOf(line, x, w, y))
    && (found && h.BestFit? ==> y + height <= limit)
    && (!found ==> forall x' :: 0 <= x' && x' + w <= right ==> Top(line, x', w) + height > limit)
  }

  lemma BestCornerIsBestPosition(line: Line, right: nat, w: nat, k: nat, h: Heuristic, height: nat, limit: nat, found: bool, b: nat, y: nat)
    requires IsSkyline(line, right) && 0 < w <= right && height <= limit
    requires BestCorner(line, w, k, h, height, limit, found, b, y)
    requires k < |line| && line[k].x + w > right
    requires found ==> line[b].x + w <= right
    ensures BestPosition(line, right, limit, w, height, h, found, b, if found then line[b].x else 0, y)
  {
    BestCornerIsBest(line, right, w, k, h, height, limit, found, b, y);
  }

  // A right-aligned position at least as low as the best one can replace it.
  lemma AsGood(line: Line, right: nat, limit: nat, w: nat, height: nat, found: bool, i: nat, x: nat, y: nat, i': nat, x': nat)
    requires |line| > 0 && BestPosition(line, right, limit, w, height, BestFit, found, i, x, y)
    requires Covers(line, i', x') && x' + w <= right && line[First(line, i', x')].x <= x' + w
    requires Top(line, x', w) + height <= limit && (found ==> Top(line, x', w) <= y)
    ensures found && BestPosition(line, right, limit, w, height, BestFit, found, i', x', y)
  {
  }

  // The skyline is no higher than it has to be: wherever it is above zero, the top of a box carries it.
  ghost predicate Tight(boxes: seq<Box>, line: Line, width: nat)
    requires |line| > 0
  {
    forall c :: 0 <= c < width ==> HeightAt(line, c) == 0 || CarriedBy(boxes, c, HeightAt(line, c))
  }

  ghost predicate CarriedBy(boxes: seq<Box>, c: nat, y: nat) {
    exists k :: 0 <= k < |boxes| && boxes[k].x <= c < boxes[k].x + boxes[k].w && y == boxes[k].y + boxes[k].h
  }

  lemma TightStaysTight(boxes: seq<Box>, line: Line, width: nat, box: Box, next: Line)
    requires |line| > 0 && |next| > 0 && Tight(boxes, line, width)
    requires Raised(line, next, width, box.x, box.w, box.y + box.h)
    ensures Tight(boxes + [box], next, width)
  {
    var all := boxes + [box];
    forall c | 0 <= c < width ensures HeightAt(next, c) == 0 || CarriedBy(all, c, HeightAt(next, c)) {
      if box.x <= c < box.x + box.w {
        assert all[|boxes|] == box;
      } else if HeightAt(line, c) != 0 {
        var k :| 0 <= k < |boxes| && boxes[k].x <= c < boxes[k].x + boxes[k].w && HeightAt(line, c) == boxes[k].y + boxes[k].h;
        assert all[k] == boxes[k];
      }
    }
  }

  // What is put at height y over these columns stands on the floor or on a box.
  ghost predicate Rests(boxes: seq<Box>, x: nat, w: nat, y: nat) {
    y == 0 || exists c: nat :: x <= c < x + w && CarriedBy(boxes, c, y)
  }

  lemma {:induction false} TopIsReached(line: Line, x: nat, w: nat) returns (c: nat)
    requires |line| > 0
    ensures Top(line, x, w) == 0 || (x <= c < x + w && HeightAt(line, c) == Top(line, x, w))
  {
    if w == 0 || Top(line, x, w) == HeightAt(line, x + w - 1) {
      c := x + w - if w == 0 then 0 else 1;
    } else {
      c := TopIsReached(line, x, w - 1);
    }
  }

  lemma TopIsCarried(boxes: seq<Box>, line: Line, width: nat, x: nat, w: nat)
    requires |line| > 0 && Tight(boxes, line, width) && x + w <= width
    ensures Rests(boxes, x, w, Top(line, x, w))
  {
    var c := TopIsReached(line, x, w);
    assert Top(line, x, w) == 0 || CarriedBy(boxes, c, Top(line, x, w));
  }

  // A window of w columns at (x, y): clear of the skyline, as low as any, bottom left also leftmost among
  // those, and with room for the height.
  ghost predicate LowestFit(line: Line, right: nat, limit: nat, w: nat, height: nat, h: Heuristic, x: nat, y: nat)
    requires |line| > 0
  {
    && x + w <= right && y + height <= limit && y == Top(line, x, w)
    && NoneLower(line, right, w, y) && (h.BottomLeft? ==> HigherLeftOf(line, x, w, y))
  }

  // No window of w columns leaves room for the height.
  ghost predicate NoRoom(line: Line, right: nat, limit: nat, w: nat, height: nat)
    requires |line| > 0
  {
    forall x :: 0 <= x && x + w <= right ==> Top(line, x, w) + height > limit
  }

  lemma BestPositionDecides(line: Line, right: nat, limit: nat, w: nat, height: nat, h: Heuristic, found: bool, i: nat, x: nat, y: nat)
    requires |line| > 0 && BestPosition(line, right, limit, w, height, h, found, i, x, y)
    ensures found && y + height <= limit ==> LowestFit(line, right, limit, w, height, h, x, y)
    ensures !found || y + height > limit ==> NoRoom(line, right, limit, w, height)
  {
  }

  // [x, x + w) raised to `top`, everything else as it was.
  ghost predicate Raised(line: Line, next: Line, width: nat, x: nat, w: nat, top: nat)
    requires |line| > 0 && |next| > 0
  {
    forall c :: 0 <= c < width ==> HeightAt(next, c) == if x <= c < x + w then top else HeightAt(line, c)
  }

  lemma PlacedRaises(line: Line, width: nat, i: nat, x: nat, w: nat, top: nat)
    requires IsSkyline(line, width) && Covers(line, i, x) && w > 0 && x + w <= width
    requires line[First(line, i, x)].x <= x + w
    ensures Raised(line, Placed(line, i, x, w, top), width, x, w, top)
  {
    forall c | 0 <= c < width
      ensures HeightAt(Placed(line, i, x, w, top), c) == if x <= c < x + w then top else HeightAt(line, c)
    {
      PlacedHeights(line, width, i, x, w, top, c);
    }
  }

  // Everything a box put at a placeable position brings about.
  lemma BoxPut(boxes: seq<Box>, line: Line, width: nat, height: nat, i: nat, box: Box, clear: nat, next: Line)
    requires IsSkyline(line, width) && Packing(boxes, width, height) && Below(boxes, line)
    requires Placeable(line, width, clear, i, box.x, box.y) && box.w > 0 && box.h > 0 && box.w <= clear && box.y + box.h <= height
    requires next == Placed(line, i, box.x, box.w, box.y + box.h) && Low(line, height)
    ensures Packing(boxes + [box], width, height) && IsSkyline(next, width) && Low(next, height) && Below(boxes + [box], next)
    ensures clear == box.w ==> Raised(line, next, width, box.x, box.w, box.y + box.h)
  {
    BoxOnTop(boxes, line, width, height, i, box, clear, next);
    PlacedIsLow(line, height, i, box.x, box.w, box.y + box.h, next);
    if clear == box.w { PlacedRaises(line, width, i, box.x, box.w, box.y + box.h); }
  }
}
