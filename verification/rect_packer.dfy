// The rectangle packer: skyline nodes relinked in place, a free list, and two extra nodes of which the
// second is the sentinel at the right edge. Nodes live in one array, and a link is an index into it.
module RectPacker {
  import opened Skyline
  import opened SkylineWaste
  import opened WasteOverflow

  // stbrp_coord: 16 bits, so every store into one is checked to lose nothing.
  newtype Coord = n: int | 0 <= n <= 0xffff

  const MAXVAL: Coord := 0xffff

  datatype Link = Null | To(id: nat)

  datatype Node = Node(x: Coord, y: Coord, next: Link)

  type Pool = seq<Node>

  // Following links from `head` visits exactly these nodes and ends at `end`.
  ghost predicate Path(pool: Pool, ids: seq<nat>, head: Link, end: Link)
    decreases |ids|
  {
    if ids == [] then head == end
    else head == To(ids[0]) && ids[0] < |pool| && Path(pool, ids[1..], pool[ids[0]].next, end)
  }

  ghost predicate Within(ids: seq<nat>, n: nat) {
    forall i :: 0 <= i < |ids| ==> ids[i] < n
  }

  ghost function LineOf(pool: Pool, ids: seq<nat>): (line: Line)
    requires Within(ids, |pool|)
    ensures |line| == |ids|
    ensures forall i :: 0 <= i < |ids| ==> line[i] == Corner(pool[ids[i]].x as nat, pool[ids[i]].y as nat)
  {
    seq(|ids|, i requires 0 <= i < |ids| => Corner(pool[ids[i]].x as nat, pool[ids[i]].y as nat))
  }

  // A non-empty list of nodes and the corners they hold.
  ghost predicate Listed(pool: Pool, ids: seq<nat>, line: Line) {
    ids != [] && Path(pool, ids, To(ids[0]), Null) && Within(ids, |pool|) && LineOf(pool, ids) == line
  }

  // `link` owns the pointer to node k; Null stands for the head pointer.
  predicate LinkTo(ids: seq<nat>, k: nat, link: Link) {
    k < |ids| && link == if k == 0 then Null else To(ids[k - 1])
  }

  lemma {:induction false} PathAt(pool: Pool, ids: seq<nat>, head: Link, end: Link, k: nat)
    requires Path(pool, ids, head, end) && k < |ids|
    ensures head == To(ids[0]) && ids[k] < |pool|
    ensures pool[ids[k]].next == if k + 1 < |ids| then To(ids[k + 1]) else end
    decreases k
  {
    if k > 0 { PathAt(pool, ids[1..], pool[ids[0]].next, end, k - 1); }
  }

  lemma {:induction false} PathParts(pool: Pool, a: seq<nat>, b: seq<nat>, head: Link, end: Link)
    ensures Path(pool, a + b, head, end) <==>
            Path(pool, a, head, if b == [] then end else To(b[0])) && Path(pool, b, if b == [] then end else To(b[0]), end)
    decreases |a|
  {
    if a == [] {
      assert a + b == b;
    } else {
      assert (a + b)[1..] == a[1..] + b;
      if a[0] < |pool| { PathParts(pool, a[1..], b, pool[a[0]].next, end); }
    }
  }

  // Writing a node that is not on the path changes nothing about it.
  lemma {:induction false} PathElsewhere(pool: Pool, ids: seq<nat>, head: Link, end: Link, n: nat, node: Node)
    requires Path(pool, ids, head, end) && n < |pool| && n !in ids
    ensures Path(pool[n := node], ids, head, end)
    decreases |ids|
  {
    if ids != [] { PathElsewhere(pool, ids[1..], pool[ids[0]].next, end, n, node); }
  }

  // What the nodes of a list hold.
  lemma Held(pool: Pool, ids: seq<nat>, line: Line)
    requires Listed(pool, ids, line)
    ensures |ids| == |line|
    ensures forall k :: 0 <= k < |ids| ==>
              && ids[k] < |pool| && pool[ids[k]].x as nat == line[k].x && pool[ids[k]].y as nat == line[k].y
              && pool[ids[k]].next == if k + 1 < |ids| then To(ids[k + 1]) else Null
  {
    forall k | 0 <= k < |ids|
      ensures pool[ids[k]].next == if k + 1 < |ids| then To(ids[k + 1]) else Null
    {
      PathAt(pool, ids, To(ids[0]), Null, k);
    }
  }

  lemma HeldInCoords(pool: Pool, ids: seq<nat>, line: Line, right: nat)
    requires Listed(pool, ids, line) && IsSkyline(line, right)
    ensures right <= 0xffff && Low(line, 0xffff)
  {
    assert line[|line| - 1].x == pool[ids[|ids| - 1]].x as nat;
  }

  lemma WalkIsReport(line: Line, right: nat, i: nat, x: nat, w: nat)
    requires IsSkyline(line, right) && Covers(line, i, x) && 0 < w && x + w <= right && right <= 0xffff && Low(line, 0xffff)
    ensures var walk := Scan(line, i, x, w, Tally(0, 0, 0));
            walk.minY == Top(line, x, w) && Wrap(walk.waste) == Reported(line, x, w) && IsReport(line, i, x, w, Wrap(walk.waste))
  {
    CoveringSegment(line, right, x, 0, i);
    ScanFindsTop(line, right, i, i, x, w, Tally(0, 0, 0));
    ReportedIsWaste(line, right, i, x, w);
  }

  // What one node adds: it raises the height, with waste below all that was visited, or leaves waste itself.
  method Count(y: nat, x: nat, nextX: int, x0: nat, width: nat, minY0: nat, waste0: Int32, visited0: int,
               ghost line: Line, ghost k: nat, ghost sum0: int)
    returns (minY: nat, waste: Int32, visited: int, ghost sum: int)
    requires k + 1 < |line| && line[k] == Corner(x, y) && line[k + 1].x == nextX && waste0 == Wrap(sum0)
    ensures Tally(minY, sum, visited) == Counted(line, k, x0, width, Tally(minY0, sum0, visited0)) && waste == Wrap(sum)
  {
    minY, waste, visited := minY0, waste0, visited0;
    var more;
    if y > minY {
      more := visited * (y - minY);
      minY := y;
      if x < x0 { visited := visited + (nextX - x0); } else { visited := visited + (nextX - x); }
    } else {
      var under := nextX - x;
      if under + visited > width { under := width - visited; }
      more := under * (minY - y);
      visited := visited + under;
    }
    WrapOnce(sum0, more);
    waste, sum := Wrap(waste + Wrap(more)), sum0 + more;
  }

  // The least height clear of the skyline from x0, and the waste reported below it.
  method FindMinY(pool: array<Node>, ghost p: Pool, ghost ids: seq<nat>, ghost line: Line, ghost i: nat, ghost right: nat,
                  first: nat, x0: nat, width: nat)
    returns (minY: nat, waste: Int32)
    requires p == pool[..] && Listed(p, ids, line) && IsSkyline(line, right)
    requires Covers(line, i, x0) && ids[i] == first && width > 0 && x0 + width <= right
    ensures pool[..] == p
    ensures minY == Top(line, x0, width) && waste == Reported(line, x0, width)
    ensures IsReport(line, i, x0, width, waste)
    ensures minY <= 0xffff
  {
    var x1 := x0 + width;
    var node := first;
    minY, waste := 0, 0;
    var visited := 0;
    ghost var k, sum, walk := i, 0, Scan(line, i, x0, width, Tally(0, 0, 0));
    Held(p, ids, line);
    while pool[node].x as int < x1
      invariant i <= k < |ids| && node == ids[k] && minY <= 0xffff
      invariant node < pool.Length && pool[node].x as nat == line[k].x
      invariant Scan(line, k, x0, width, Tally(minY, sum, visited)) == walk && waste == Wrap(sum)
      decreases |ids| - k
    {
      assert line[|line| - 1].x == right;
      assert node == ids[k] && pool[node].next == To(ids[k + 1]);
      var y, x, next := pool[node].y as nat, pool[node].x as nat, pool[node].next.id;
      minY, waste, visited, sum := Count(y, x, pool[next].x as int, x0, width, minY, waste, visited, line, k, sum);
      node := next;
      k := k + 1;
    }
    HeldInCoords(p, ids, line, right);
    WalkIsReport(line, right, i, x0, width);
  }

  function Aligned(w: nat, align: nat): nat
    requires align >= 1
  {
    w + (align - 1) - (w + (align - 1)) % align
  }

  // The least multiple of the alignment that is not below the width.
  lemma AlignedIsLeast(w: nat, align: nat, n: nat)
    requires align >= 1
    ensures w <= Aligned(w, align) < w + align && Aligned(w, align) % align == 0
    ensures w <= n && n % align == 0 ==> Aligned(w, align) <= n
  {
    var q, m := (w + (align - 1)) / align, n / align;
    assert Aligned(w, align) == q * align;
    Multiple(q, align);
    if w <= n && n % align == 0 {
      assert n == m * align && (m + 1) * align == m * align + align;
      assert q * align < (m + 1) * align;
      Fewer(q, m + 1, align);
      NoFewer(q, m, align);
    }
  }

  lemma Fewer(q: int, m: int, n: nat)
    requires q * n < m * n
    ensures q < m
  {
    assert (m - q) * n > 0;
  }

  lemma NoFewer(q: nat, m: nat, n: nat)
    requires q <= m
    ensures q * n <= m * n
  {
  }

  lemma Multiple(q: nat, n: nat)
    requires n >= 1
    ensures (q * n) % n == 0
  {
    var d := q * n / n;
    assert q * n == d * n + (q * n) % n && (d + 1) * n == d * n + n && (q + 1) * n == q * n + n;
    Fewer(q, d + 1, n);
    Fewer(d, q + 1, n);
  }

  lemma AlignedByOne(w: nat)
    ensures Aligned(w, 1) == w
  {
  }

  lemma AlignedIsAtLeast(w: nat, align: nat)
    requires align >= 1
    ensures w <= Aligned(w, align) && (align == 1 ==> Aligned(w, align) == w)
  {
  }

  // The window that starts at corner k, and the node behind it.
  method MeasureCorner(pool: array<Node>, ghost p: Pool, ghost ids: seq<nat>, ghost line: Line, ghost right: nat,
                       node: nat, w: nat, ghost k: nat)
    returns (y: nat, waste: Int32, next: nat)
    requires p == pool[..] && Listed(p, ids, line) && IsSkyline(line, right) && 0 < w
    requires k < |ids| && node == ids[k] && line[k].x + w <= right
    ensures pool[..] == p
    ensures y == Top(line, line[k].x, w) <= 0xffff && waste == Reported(line, line[k].x, w)
    ensures k + 1 < |ids| && next == ids[k + 1] && next < pool.Length && pool[next].x as nat == line[k + 1].x
  {
    Held(p, ids, line);
    assert line[|line| - 1].x == right;
    assert Covers(line, k, line[k].x);
    y, waste := FindMinY(pool, p, ids, line, k, right, node, pool[node].x as nat, w);
    next := pool[node].next.id;
  }

  // The best of the positions that start at a corner. `prev` owns the link to the best node.
  method FindLeftAligned(pool: array<Node>, ghost p: Pool, ghost ids: seq<nat>, ghost line: Line, right: nat, head: nat,
                         h: Heuristic, height: nat, w: nat, limit: nat)
    returns (found: bool, prev: Link, y: nat, waste: Int32, ghost k: nat, ghost b: nat)
    requires p == pool[..] && Listed(p, ids, line) && head == ids[0] && IsSkyline(line, right) && 0 < w <= right
    ensures pool[..] == p
    ensures k < |ids| && line[k].x + w > right
    ensures BestCorner(line, w, k, h, height, limit, found, b, y)
    ensures found ==> LinkTo(ids, b, prev) && line[b].x + w <= right
    ensures found && h.BestFit? ==> LeastCorner(line, w, k, b, y, waste)
    ensures !found ==> y == 0x4000_0000
  {
    var node, link := head, Null;
    found, prev, y, waste, k, b := false, Null, 0x4000_0000, 0x4000_0000, 0, 0;
    Held(p, ids, line);
    while pool[node].x as nat + w <= right
      invariant pool[..] == p
      invariant 0 <= k < |ids| && node == ids[k] && LinkTo(ids, k, link)
      invariant node < pool.Length && pool[node].x as nat == line[k].x
      invariant BestOfCorners(line, w, k, h, height, limit, found, b, y, waste)
      invariant found ==> LinkTo(ids, b, prev) && line[b].x + w <= right
      decreases |ids| - k
    {
      var next;
      found, prev, y, waste, next, b :=
        TryCorner(pool, p, ids, line, right, h, height, w, limit, found, prev, y, waste, node, link, b, k);
      link, node, k := To(node), next, k + 1;
    }
  }

  // One window that starts at a corner.
  method TryCorner(pool: array<Node>, ghost p: Pool, ghost ids: seq<nat>, ghost line: Line, ghost right: nat, h: Heuristic,
                   height: nat, w: nat, limit: nat, found0: bool, prev0: Link, y0: nat, waste0: Int32, node: nat, link: Link,
                   ghost b0: nat, ghost k: nat)
    returns (found: bool, prev: Link, y: nat, waste: Int32, next: nat, ghost b: nat)
    requires p == pool[..] && Listed(p, ids, line) && IsSkyline(line, right) && 0 < w
    requires k < |ids| == |line| && node == ids[k] && LinkTo(ids, k, link) && line[k].x + w <= right
    requires BestOfCorners(line, w, k, h, height, limit, found0, b0, y0, waste0)
    requires found0 ==> LinkTo(ids, b0, prev0) && line[b0].x + w <= right
    ensures pool[..] == p
    ensures k + 1 < |ids| && next == ids[k + 1] && next < pool.Length && pool[next].x as nat == line[k + 1].x
    ensures BestOfCorners(line, w, k + 1, h, height, limit, found, b, y, waste)
    ensures found ==> LinkTo(ids, b, prev) && line[b].x + w <= right
  {
    found, prev, y, waste, b := found0, prev0, y0, waste0, b0;
    var y', waste';
    y', waste', next := MeasureCorner(pool, p, ids, line, right, node, w, k);
    CornerStep(line, right, w, k, h, height, limit, found, b, y, waste);
    if h.BottomLeft? {
      if y' < y { found, prev, y, b := true, link, y', k; }
    } else if y' + height <= limit {
      if y' < y || (y' == y && waste' < waste) { found, prev, y, waste, b := true, link, y', waste', k; }
    }
  }

  // The segment that covers a column, walking right from a node.
  method Seek(pool: array<Node>, ghost p: Pool, ghost ids: seq<nat>, ghost line: Line, ghost right: nat,
              node0: nat, link0: Link, x: nat, ghost k0: nat)
    returns (node: nat, link: Link, ghost k: nat)
    requires p == pool[..] && Listed(p, ids, line) && IsSkyline(line, right)
    requires k0 < |ids| && node0 == ids[k0] && LinkTo(ids, k0, link0) && line[k0].x <= x < right
    ensures pool[..] == p
    ensures k0 <= k < |ids| && node == ids[k] && LinkTo(ids, k, link) && Covers(line, k, x)
  {
    node, link, k := node0, link0, k0;
    assert line[k].x <= x < line[|line| - 1].x;
    Held(p, ids, line);
    while pool[pool[node].next.id].x as nat <= x
      invariant k0 <= k < |ids| - 1 && node == ids[k] && LinkTo(ids, k, link) && line[k].x <= x
      invariant node < pool.Length && pool[node].next == To(ids[k + 1]) && ids[k + 1] < pool.Length
      invariant pool[ids[k + 1]].x as nat == line[k + 1].x
      decreases |ids| - k
    {
      link, node, k := To(node), pool[node].next.id, k + 1;
      assert line[k].x < line[|line| - 1].x;
    }
  }

  // The first node at or beyond column x.
  method FirstFrom(pool: array<Node>, ghost p: Pool, ghost ids: seq<nat>, ghost line: Line, ghost right: nat, head: nat, x: nat)
    returns (tail: Link, ghost t: nat)
    requires p == pool[..] && Listed(p, ids, line) && head == ids[0] && IsSkyline(line, right) && x <= right
    ensures pool[..] == p
    ensures t < |ids| && tail == To(ids[t]) && x <= line[t].x && forall j :: 0 <= j < t ==> line[j].x < x
  {
    Held(p, ids, line);
    tail, t := To(head), 0;
    while pool[tail.id].x as nat < x
      invariant 0 <= t < |ids| && tail == To(ids[t]) && forall j :: 0 <= j < t ==> line[j].x < x
      decreases |ids| - t
    {
      assert line[|line| - 1].x >= x;
      tail, t := pool[tail.id].next, t + 1;
    }
  }

  // The window of w columns from x, further right than the last one looked at.
  method Measure(pool: array<Node>, ghost p: Pool, ghost ids: seq<nat>, ghost line: Line, ghost right: nat,
                 node0: nat, link0: Link, x: nat, w: nat, ghost k0: nat)
    returns (node: nat, link: Link, y: nat, waste: Int32, ghost k: nat)
    requires p == pool[..] && Listed(p, ids, line) && IsSkyline(line, right) && 0 < w && x + w <= right
    requires k0 < |ids| && node0 == ids[k0] && LinkTo(ids, k0, link0) && line[k0].x <= x
    ensures pool[..] == p
    ensures k0 <= k < |ids| && node == ids[k] && LinkTo(ids, k, link) && Covers(line, k, x)
    ensures y == Top(line, x, w) && waste == Reported(line, x, w)
  {
    node, link, k := Seek(pool, p, ids, line, right, node0, link0, x, k0);
    y, waste := FindMinY(pool, p, ids, line, k, right, node, x, w);
  }

  // The best position so far: lowest, and of those that start at a corner or end at one of the first t the
  // one that wastes least.
  ghost predicate BestSoFar(line: Line, right: nat, limit: nat, w: nat, height: nat, found: bool, b: nat, x: nat, y: nat, waste: Int32, t: nat)
    requires 0 < |line| && t <= |line|
  {
    && BestPosition(line, right, limit, w, height, BestFit, found, b, x, y)
    && (found ==> Candidate(line, right, w, y, x) && waste == Reported(line, x, w) && LeastStarting(line, right, w, x, y) && LeastEnding(line, w, t, x, y))
  }

  // One more window that ends at a corner, taken if it is better.
  lemma OneMoreEnding(line: Line, right: nat, limit: nat, w: nat, height: nat, found: bool, b: nat, x: nat, y: nat, waste: Int32, t: nat,
      k: nat, x': nat)
    requires t < |line| && x' + w == line[t].x && BestSoFar(line, right, limit, w, height, found, b, x, y, waste, t)
    requires Covers(line, k, x') && x' + w <= right && line[First(line, k, x')].x <= x' + w
    requires !found ==> y > limit
    ensures var y', waste' := Top(line, x', w), Reported(line, x', w);
            if y' + height <= limit && y' <= y && (y' < y || waste' < waste || (waste' == waste && x' < x))
            then found && BestSoFar(line, right, limit, w, height, found, k, x', y, waste', t + 1)
            else BestSoFar(line, right, limit, w, height, found, b, x, y, waste, t + 1)
  {
    var y', waste' := Top(line, x', w), Reported(line, x', w);
    if found { NextLeastEnding(line, w, t, x, y); }
    if y' + height <= limit && y' <= y { AsGood(line, right, limit, w, height, found, b, x, y, k, x'); }
  }

  // Best fit also tries to align the right edge to every corner; it may move a find to a place that wastes
  // less, never to a higher one.
  method FindRightAligned(pool: array<Node>, ghost p: Pool, ghost ids: seq<nat>, ghost line: Line, right: nat, head: nat,
                          height: nat, w: nat, limit: nat,
                          prev0: Link, x0: nat, y0: nat, waste0: Int32, found: bool, ghost b0: nat)
    returns (prev: Link, x: nat, ghost b: nat)
    requires p == pool[..] && Listed(p, ids, line) && head == ids[0] && IsSkyline(line, right) && 0 < w <= right && height <= limit
    requires BestSoFar(line, right, limit, w, height, found, b0, x0, y0, waste0, 0)
    requires found ==> LinkTo(ids, b0, prev0)
    requires !found ==> y0 > limit
    ensures pool[..] == p
    ensures BestPosition(line, right, limit, w, height, BestFit, found, b, x, y0)
    ensures found ==> LinkTo(ids, b, prev)
    ensures found ==> LeastWaste(line, right, w, x, y0)
  {
    ghost var t;
    var tail;
    tail, t := FirstFrom(pool, p, ids, line, right, head, w);
    Held(p, ids, line);
    var node, link, waste := head, Null, waste0;
    ghost var k := 0;
    prev, x, b := prev0, x0, b0;
    assert line[0].x == 0;
    while tail != Null
      invariant pool[..] == p
      invariant 0 <= k < |ids| && node == ids[k] && LinkTo(ids, k, link)
      invariant 0 <= t <= |ids| && tail == if t < |ids| then To(ids[t]) else Null
      invariant t < |ids| ==> line[k].x + w <= line[t].x
      invariant BestSoFar(line, right, limit, w, height, found, b, x, y0, waste, t)
      invariant found ==> LinkTo(ids, b, prev)
      decreases |ids| - t
    {
      assert line[t].x <= right && p[ids[t]].next == if t + 1 < |ids| then To(ids[t + 1]) else Null;
      var xpos, next := pool[tail.id].x as nat - w, pool[tail.id].next;
      prev, x, waste, node, link, b, k :=
        TryEnding(pool, p, ids, line, right, height, w, limit, xpos, prev, x, y0, waste, found, node, link, b, k, t);
      tail, t := next, t + 1;
    }
    if found { LeastOfBoth(line, right, w, x, y0); }
  }

  // One window that ends at a corner; the segment it starts in lies further right each time.
  method TryEnding(pool: array<Node>, ghost p: Pool, ghost ids: seq<nat>, ghost line: Line, ghost right: nat, height: nat, w: nat,
                   limit: nat, xpos: nat, prev0: Link, x0: nat, y0: nat, waste0: Int32, found: bool, node0: nat, link0: Link,
                   ghost b0: nat, ghost k0: nat, ghost t: nat)
    returns (prev: Link, x: nat, waste: Int32, node: nat, link: Link, ghost b: nat, ghost k: nat)
    requires p == pool[..] && Listed(p, ids, line) && IsSkyline(line, right) && 0 < w <= right && height <= limit
    requires t < |ids| == |line| && xpos + w == line[t].x <= right && (!found ==> y0 > limit)
    requires k0 < |ids| && node0 == ids[k0] && LinkTo(ids, k0, link0) && line[k0].x <= xpos
    requires BestSoFar(line, right, limit, w, height, found, b0, x0, y0, waste0, t) && (found ==> LinkTo(ids, b0, prev0))
    ensures pool[..] == p
    ensures k < |ids| && node == ids[k] && LinkTo(ids, k, link) && (t + 1 < |ids| ==> line[k].x + w <= line[t + 1].x)
    ensures BestSoFar(line, right, limit, w, height, found, b, x, y0, waste, t + 1) && (found ==> LinkTo(ids, b, prev))
  {
    prev, x, waste, b := prev0, x0, waste0, b0;
    var y, waste';
    node, link, y, waste', k := Measure(pool, p, ids, line, right, node0, link0, xpos, w, k0);
    RightAlignedFits(line, right, k, t, xpos, w);
    OneMoreEnding(line, right, limit, w, height, found, b, x, y0, waste, t, k, xpos);
    if y + height <= limit && y <= y0 {
      if y < y0 || waste' < waste || (waste' == waste && xpos < x) {
        prev, x, waste, b := link, xpos, waste', k;
      }
    }
  }

  lemma RightAlignedFits(line: Line, right: nat, k: nat, t: nat, xpos: nat, w: nat)
    requires IsSkyline(line, right) && Covers(line, k, xpos) && t < |line| && xpos + w == line[t].x && w > 0
    ensures xpos + w <= right && line[First(line, k, xpos)].x <= xpos + w
    ensures t + 1 < |line| ==> line[k].x + w <= line[t + 1].x
  {
    assert t < |line| - 1 ==> line[t].x < line[|line| - 1].x;
    assert k < t;
    assert k + 1 == t || line[k + 1].x < line[t].x;
  }

  // The column of the node a link points to.
  method CornerOf(pool: array<Node>, ghost p: Pool, ghost ids: seq<nat>, ghost line: Line, head: nat, prev: Link, ghost i: nat)
    returns (x: nat)
    requires p == pool[..] && Listed(p, ids, line) && head == ids[0] && LinkTo(ids, i, prev)
    ensures i < |line| && x == line[i].x
  {
    Held(p, ids, line);
    assert i > 0 ==> p[ids[i - 1]].next == To(ids[i]);
    x := pool[if prev == Null then head else pool[prev.id].next.id].x as nat;
  }

  // The best corner is where the second pass begins.
  lemma BestOfAll(line: Line, right: nat, w: nat, k: nat, height: nat, limit: nat, found: bool, b: nat, y: nat, waste: Int32)
    requires IsSkyline(line, right) && k < |line| && line[k].x + w > right && (found ==> b < k && line[b].x + w <= right)
    requires BestPosition(line, right, limit, w, height, BestFit, found, b, if found then line[b].x else 0, y)
    requires found ==> LeastCorner(line, w, k, b, y, waste)
    ensures BestSoFar(line, right, limit, w, height, found, b, if found then line[b].x else 0, y, waste, 0)
  {
  }

  // Both passes over the corners.
  method Search(pool: array<Node>, ghost p: Pool, ghost ids: seq<nat>, ghost line: Line, right: nat, head: nat,
                h: Heuristic, height: nat, w: nat, limit: nat)
    returns (found: bool, prev: Link, x: nat, y: nat, ghost i: nat)
    requires p == pool[..] && Listed(p, ids, line) && head == ids[0] && IsSkyline(line, right)
    requires 0 < w <= right && height <= limit <= 0xffff
    ensures pool[..] == p
    ensures BestPosition(line, right, limit, w, height, h, found, i, x, y)
    ensures found ==> LinkTo(ids, i, prev)
    ensures found && h.BestFit? ==> LeastWaste(line, right, w, x, y)
  {
    ghost var k;
    var waste;
    found, prev, y, waste, k, i := FindLeftAligned(pool, p, ids, line, right, head, h, height, w, limit);
    BestCornerIsBestPosition(line, right, w, k, h, height, limit, found, i, y);
    x := 0;
    if found {
      x := CornerOf(pool, p, ids, line, head, prev, i);
    }
    if h.BestFit? {
      BestOfAll(line, right, w, k, height, limit, found, i, y, waste);
      prev, x, i := FindRightAligned(pool, p, ids, line, right, head, height, w, limit, prev, x, y, waste, found, i);
    }
  }

  // ---- relinking, as facts about the pool before and after one store

  // Each of the n nodes occurs exactly once.
  ghost predicate Everyone(ids: multiset<nat>, n: nat) {
    forall id: nat :: ids[id] == if id < n then 1 else 0
  }

  // Two lists that share no node and between them hold all of them.
  ghost predicate Lists(pool: Pool, active: seq<nat>, activeHead: Link, free: seq<nat>, freeHead: Link) {
    && Path(pool, active, activeHead, Null) && Path(pool, free, freeHead, Null)
    && Everyone(multiset(active) + multiset(free), |pool|)
  }

  // The active list cut open: it runs through `left` to `node`, and `right` is yet to be joined on.
  ghost predicate CutOpen(pool: Pool, left: seq<nat>, activeHead: Link, node: nat, right: seq<nat>, free: seq<nat>, freeHead: Link) {
    && Path(pool, left, activeHead, To(node))
    && right != [] && Path(pool, right, To(right[0]), Null)
    && Path(pool, free, freeHead, Null)
    && Everyone(multiset(left) + multiset{node} + multiset(right) + multiset(free), |pool|)
  }

  lemma {:induction false} PathKeepsNext(pool: Pool, ids: seq<nat>, head: Link, end: Link, n: nat, node: Node)
    requires Path(pool, ids, head, end) && n < |pool| && node.next == pool[n].next
    ensures Path(pool[n := node], ids, head, end)
    decreases |ids|
  {
    if ids != [] { PathKeepsNext(pool, ids[1..], pool[ids[0]].next, end, n, node); }
  }

  lemma {:induction false} PathWithin(pool: Pool, ids: seq<nat>, head: Link, end: Link)
    requires Path(pool, ids, head, end)
    ensures Within(ids, |pool|)
    decreases |ids|
  {
    if ids != [] { PathWithin(pool, ids[1..], pool[ids[0]].next, end); }
  }

  // The first free node leaves the free list; its coordinates are free to change.
  lemma TakeFirstFree(pool: Pool, active: seq<nat>, activeHead: Link, free: seq<nat>, freeHead: Link, node: Node)
    requires Lists(pool, active, activeHead, free, freeHead) && freeHead != Null
    ensures free != [] && freeHead == To(free[0]) && free[0] < |pool| && free[0] !in active
    ensures node.next == pool[free[0]].next ==>
              && Path(pool[free[0] := node], active, activeHead, Null)
              && Path(pool[free[0] := node], free[1..], node.next, Null)
  {
    assert free == [free[0]] + free[1..];
    assert multiset(free)[free[0]] >= 1 && (multiset(active) + multiset(free))[free[0]] <= 1;
    if node.next == pool[free[0]].next {
      PathElsewhere(pool, active, activeHead, Null, free[0], node);
      PathKeepsNext(pool, free[1..], node.next, Null, free[0], node);
    }
  }

  // Pointing the head link at the new node cuts the active list open at its start.
  lemma RedirectHead(pool: Pool, active: seq<nat>, activeHead: Link, node: nat, free: seq<nat>, freeHead: Link)
    requires Path(pool, active, activeHead, Null) && Path(pool, free, freeHead, Null) && active != []
    requires Everyone(multiset(active) + multiset{node} + multiset(free), |pool|)
    ensures CutOpen(pool, [], To(node), node, active, free, freeHead)
  {
    var none: seq<nat> := [];
    assert multiset(none) + multiset{node} + multiset(active) + multiset(free)
           == multiset(active) + multiset{node} + multiset(free);
  }

  lemma RedirectPath(pool: Pool, before: seq<nat>, last: nat, after: seq<nat>, head: Link, node: nat)
    requires Path(pool, before + ([last] + after), head, Null) && last !in before && last !in after && after != []
    ensures last < |pool|
    ensures var q := pool[last := pool[last].(next := To(node))];
            Path(q, before + [last], head, To(node)) && Path(q, after, To(after[0]), Null)
  {
    PathParts(pool, before, [last] + after, head, Null);
    assert ([last] + after)[1..] == after;
    assert Path(pool, after, pool[last].next, Null);
    var q := pool[last := pool[last].(next := To(node))];
    PathElsewhere(pool, before, head, To(last), last, q[last]);
    PathElsewhere(pool, after, To(after[0]), Null, last, q[last]);
    assert Path(q, [last], To(last), To(node));
    PathParts(q, before, [last], head, To(node));
  }

  // Pointing a node at the new one cuts the list open behind it.
  lemma SplitAround(ids: seq<nat>, s: nat)
    requires 0 < s < |ids|
    ensures ids == ids[..s - 1] + ([ids[s - 1]] + ids[s..]) && ids[..s] == ids[..s - 1] + [ids[s - 1]]
  {
  }

  lemma Redirect(pool: Pool, active: seq<nat>, activeHead: Link, node: nat, free: seq<nat>, freeHead: Link, s: nat)
    requires Path(pool, active, activeHead, Null) && Path(pool, free, freeHead, Null) && 0 < s < |active|
    requires Everyone(multiset(active) + multiset{node} + multiset(free), |pool|)
    ensures active[s - 1] < |pool|
    ensures CutOpen(pool[active[s - 1] := pool[active[s - 1]].(next := To(node))],
                    active[..s], activeHead, node, active[s..], free, freeHead)
  {
    var before, last, after := active[..s - 1], active[s - 1], active[s..];
    RedirectCounts(active, node, free, s, |pool|);
    SplitAround(active, s);
    RedirectPath(pool, before, last, after, activeHead, node);
    PathElsewhere(pool, free, freeHead, Null, last, pool[last].(next := To(node)));
  }

  lemma RedirectCounts(active: seq<nat>, node: nat, free: seq<nat>, s: nat, n: nat)
    requires 0 < s < |active| && Everyone(multiset(active) + multiset{node} + multiset(free), n)
    ensures active[s - 1] !in active[..s - 1] && active[s - 1] !in active[s..] && active[s - 1] !in free
    ensures Everyone(multiset(active[..s]) + multiset{node} + multiset(active[s..]) + multiset(free), n)
  {
    var others := multiset{node} + multiset(free);
    assert multiset(active) + multiset{node} + multiset(free) == multiset(active) + others;
    OnlyOnce(active, others, n, s - 1);
    assert active[s - 1 + 1..] == active[s..];
    assert others[active[s - 1]] == 0;
    assert multiset(active[..s]) + multiset{node} + multiset(active[s..]) + multiset(free)
           == multiset(active) + multiset{node} + multiset(free) by { assert active == active[..s] + active[s..]; }
  }

  lemma OnlyOnce(ids: seq<nat>, others: multiset<nat>, n: nat, k: nat)
    requires Everyone(multiset(ids) + others, n) && k < |ids|
    ensures ids[k] !in ids[..k] && ids[k] !in ids[k + 1..] && ids[k] !in others
  {
    assert ids == ids[..k] + ([ids[k]] + ids[k + 1..]);
    assert multiset(ids) == multiset(ids[..k]) + multiset{ids[k]} + multiset(ids[k + 1..]);
    assert (multiset(ids) + others)[ids[k]] <= 1;
  }

  // A covered node moves to the front of the free list.
  lemma MoveToFree(pool: Pool, left: seq<nat>, activeHead: Link, node: nat, right: seq<nat>, free: seq<nat>, freeHead: Link)
    requires CutOpen(pool, left, activeHead, node, right, free, freeHead) && |right| > 1
    ensures right[0] < |pool| && pool[right[0]].next == To(right[1])
    ensures CutOpen(pool[right[0] := pool[right[0]].(next := freeHead)],
                    left, activeHead, node, right[1..], [right[0]] + free, To(right[0]))
  {
    var cur, rest := right[0], right[1..];
    var q := pool[cur := pool[cur].(next := freeHead)];
    assert right == [cur] + rest;
    var others := multiset(left) + multiset{node} + multiset(free);
    assert multiset(left) + multiset{node} + multiset(right) + multiset(free) == multiset(right) + others;
    OnlyOnce(right, others, |pool|, 0);
    assert others[cur] == 0;
    assert Path(pool, rest, pool[cur].next, Null);
    assert pool[cur].next == To(rest[0]);
    assert cur !in left && cur !in free;
    PathElsewhere(pool, left, activeHead, To(node), cur, q[cur]);
    PathElsewhere(pool, rest, To(rest[0]), Null, cur, q[cur]);
    PathElsewhere(pool, free, freeHead, Null, cur, q[cur]);
    assert ([cur] + free)[1..] == free;
    assert multiset(right) == multiset{cur} + multiset(rest);
    assert multiset([cur] + free) == multiset{cur} + multiset(free);
    assert multiset(left) + multiset{node} + multiset(rest) + multiset([cur] + free)
           == multiset(left) + multiset{node} + multiset(right) + multiset(free);
    assert Path(q, [cur] + free, To(cur), Null);
  }

  lemma NextBehindCut(pool: Pool, left: seq<nat>, activeHead: Link, node: nat, right: seq<nat>, free: seq<nat>, freeHead: Link)
    requires CutOpen(pool, left, activeHead, node, right, free, freeHead)
    ensures right[0] < |pool| && pool[right[0]].next == if |right| > 1 then To(right[1]) else Null
    ensures |right| > 1 ==> right[1] < |pool|
  {
    PathAt(pool, right, To(right[0]), Null, 0);
    if |right| > 1 { PathAt(pool, right, To(right[0]), Null, 1); }
  }

  lemma CutOnce(pool: Pool, left: seq<nat>, activeHead: Link, node: nat, right: seq<nat>, free: seq<nat>, freeHead: Link)
    requires CutOpen(pool, left, activeHead, node, right, free, freeHead)
    ensures node < |pool| && node !in left && node !in right
    ensures right[0] !in left && right[0] !in right[1..] && right[0] != node
  {
    var all, others := multiset(left) + multiset{node} + multiset(right) + multiset(free), multiset(left) + multiset{node} + multiset(free);
    assert all == multiset(right) + others;
    OnlyOnce(right, others, |pool|, 0);
    assert others[right[0]] == 0;
    assert all[node] >= 1;
    assert all[node] == 1;
  }

  lemma TailOfTail(ids: seq<nat>, k: nat)
    requires k < |ids|
    ensures ids[k..][1..] == ids[k + 1..]
  {
  }

  ghost predicate SameCorners(p: Pool, q: Pool) {
    |p| == |q| && forall n :: 0 <= n < |p| ==> p[n].x == q[n].x && p[n].y == q[n].y
  }

  // Joining the rest on behind the new node closes the active list again.
  lemma CloseUp(pool: Pool, left: seq<nat>, activeHead: Link, node: nat, right: seq<nat>, free: seq<nat>, freeHead: Link)
    requires CutOpen(pool, left, activeHead, node, right, free, freeHead)
    ensures node < |pool|
    ensures Lists(pool[node := pool[node].(next := To(right[0]))], left + [node] + right, activeHead, free, freeHead)
  {
    var all := multiset(left) + multiset{node} + multiset(right) + multiset(free);
    assert all[node] >= 1;
    var q := pool[node := pool[node].(next := To(right[0]))];
    assert all[node] == 1;
    assert node !in left && node !in right && node !in free;
    PathElsewhere(pool, left, activeHead, To(node), node, q[node]);
    PathElsewhere(pool, right, To(right[0]), Null, node, q[node]);
    PathElsewhere(pool, free, freeHead, Null, node, q[node]);
    assert Path(q, [node], To(node), To(right[0]));
    PathParts(q, [node], right, To(node), Null);
    PathParts(q, left, [node] + right, activeHead, Null);
    assert left + [node] + right == left + ([node] + right);
    assert multiset(left + [node] + right) == multiset(left) + multiset{node} + multiset(right);
  }

  // A store that keeps every corner of the list keeps its line.
  lemma LineKept(pool: Pool, ids: seq<nat>, n: nat, node: Node)
    requires Within(ids, |pool|) && n < |pool| && (n in ids ==> node.x == pool[n].x && node.y == pool[n].y)
    ensures LineOf(pool[n := node], ids) == LineOf(pool, ids)
  {
  }

  // All coordinates are kept, but for one node that is moved right to `edge`.
  ghost predicate MovedTo(p: Pool, q: Pool, cur: nat, edge: nat) {
    && |p| == |q| && cur < |p|
    && q[cur].x as nat == Max(p[cur].x as nat, edge) && q[cur].y == p[cur].y
    && forall n :: 0 <= n < |p| && n != cur ==> p[n].x == q[n].x && p[n].y == q[n].y
  }

  // Once the last covered node has been moved right, the corners are those of the raised skyline.
  lemma StitchedLine(p: Pool, q: Pool, act: seq<nat>, node: nat, s: nat, k: nat, line: Line, i: nat, x: nat, w: nat, top: nat)
    requires Within(act, |p|) && LineOf(p, act) == line && Covers(line, i, x) && node < |p|
    requires s == First(line, i, x) && k < |act| && IsKept(line, s, x + w, k)
    requires node !in act && act[k] !in act[..s] && act[k..][0] !in act[k..][1..]
    requires p[node].x as nat == x && p[node].y as nat == top
    requires MovedTo(p, q, act[k], x + w)
    ensures var ids := act[..s] + [node] + act[k..];
            Within(ids, |q|) && LineOf(q, ids) == Placed(line, i, x, w, top)
  {
    KeptIsUnique(line, s, x + w, k);
    StitchedSplice(p, q, act, node, s, k, line, x, x + w, top);
  }

  lemma StitchedSplice(p: Pool, q: Pool, act: seq<nat>, node: nat, s: nat, k: nat, line: Line, x: nat, right: nat, top: nat)
    requires Within(act, |p|) && LineOf(p, act) == line && node < |p| && s <= k < |act|
    requires node !in act && act[k] !in act[..s] && act[k..][0] !in act[k..][1..]
    requires p[node].x as nat == x && p[node].y as nat == top
    requires MovedTo(p, q, act[k], right)
    ensures var ids := act[..s] + [node] + act[k..];
            Within(ids, |q|) && LineOf(q, ids) == Spliced(line, s, k, x, right, top)
  {
    var ids := act[..s] + [node] + act[k..];
    assert Within(ids, |q|);
    SplicedCorner(line, s, k, x, right, top, 0);
    forall m | 0 <= m < |ids|
      ensures Corner(q[ids[m]].x as nat, q[ids[m]].y as nat) == Spliced(line, s, k, x, right, top)[m]
    {
      StitchedCorner(p, q, act, node, s, k, line, x, right, top, m);
    }
  }

  lemma StitchedCorner(p: Pool, q: Pool, act: seq<nat>, node: nat, s: nat, k: nat, line: Line, x: nat, right: nat, top: nat, m: nat)
    requires Within(act, |p|) && LineOf(p, act) == line && node < |p| && s <= k < |act|
    requires node !in act && act[k] !in act[..s] && act[k..][0] !in act[k..][1..]
    requires p[node].x as nat == x && p[node].y as nat == top
    requires MovedTo(p, q, act[k], right) && m < |act| + 1 + s - k
    ensures var ids := act[..s] + [node] + act[k..];
            ids[m] < |q| && m < |Spliced(line, s, k, x, right, top)|
            && Corner(q[ids[m]].x as nat, q[ids[m]].y as nat) == Spliced(line, s, k, x, right, top)[m]
  {
    var ids := act[..s] + [node] + act[k..];
    SplicedCorner(line, s, k, x, right, top, m);
    if m < s {
      CornerKept(p, q, act, line, act[k], right, m);
      assert ids[m] == act[m] && act[m] in act[..s];
    } else if m > s + 1 {
      var j := m + k - s - 1;
      CornerKept(p, q, act, line, act[k], right, j);
      assert ids[m] == act[j] && act[k..][1..][j - k - 1] == act[j];
    } else if m == s + 1 {
      assert ids[m] == act[k] && line[k] == Corner(p[act[k]].x as nat, p[act[k]].y as nat);
    }
  }

  lemma CornerKept(p: Pool, q: Pool, ids: seq<nat>, line: Line, cur: nat, edge: nat, m: nat)
    requires Within(ids, |p|) && LineOf(p, ids) == line && MovedTo(p, q, cur, edge) && m < |ids|
    ensures ids[m] != cur ==> Corner(q[ids[m]].x as nat, q[ids[m]].y as nat) == line[m]
  {
  }

  lemma SameLine(p: Pool, q: Pool, ids: seq<nat>)
    requires SameCorners(p, q) && Within(ids, |p|)
    ensures LineOf(q, ids) == LineOf(p, ids)
  {
  }

  lemma AlignIsCeiling(width: nat, n: nat)
    requires width >= 1 && n >= 1
    ensures (width + n - 1) / n >= 1
    ensures n >= width <==> (width + n - 1) / n == 1
  {
    var q := (width + n - 1) / n;
    assert q * n <= width + n - 1 < (q + 1) * n;
    if q >= 2 { assert 2 * n <= q * n; }
  }

  class Context {
    const width: nat
    const height: nat
    const numNodes: nat
    const pool: array<Node>
    var align: nat
    var heuristic: Heuristic
    var activeHead: Link
    var freeHead: Link
    ghost var active: seq<nat>
    ghost var free: seq<nat>
    ghost var boxes: seq<Box>
    // Every box so far was put with its own width, not a rounded one.
    ghost var exact: bool

    // The two lists hold every node exactly once.
    ghost predicate Linked()
      reads this, pool
    {
      && pool.Length == numNodes + 2
      && Lists(pool[..], active, activeHead, free, freeHead)
      && Within(active, pool.Length) && active != []
    }

    ghost function Line(): Line
      requires Linked()
      reads this, pool
    {
      LineOf(pool[..], active)
    }

    ghost predicate Valid()
      reads this, pool
    {
      && Linked()
      && 1 <= width <= 0xffff && height <= 0xffff && numNodes >= 1 && align >= 1
      && IsSkyline(Line(), width) && Low(Line(), height)
      && Packing(boxes, width, height) && Below(boxes, Line())
      && (exact ==> Tight(boxes, Line(), width))
      && (numNodes >= width ==> align == 1 && exact)
    }

    constructor (width: nat, height: nat, numNodes: nat)
      requires 1 <= width <= 0xffff && height <= 0xffff && numNodes >= 1
      ensures Valid() && fresh(pool)
      ensures this.width == width && this.height == height && this.numNodes == numNodes
      ensures boxes == [] && exact && heuristic == BottomLeft
      ensures numNodes >= width <==> align == 1
      ensures Line() == [Corner(0, 0), Corner(width, 0xffff)]
    {
      var nodes := new Node[numNodes + 2](i => Node(0, 0, Null));
      var i := 0;
      while i < numNodes - 1
        invariant 0 <= i <= numNodes - 1 && nodes.Length == numNodes + 2
        invariant forall k :: 0 <= k < i ==> nodes[k].next == To(k + 1)
      {
        nodes[i] := nodes[i].(next := To(i + 1));
        i := i + 1;
      }
      nodes[i] := nodes[i].(next := Null);
      nodes[numNodes] := Node(0, 0, To(numNodes + 1));
      nodes[numNodes + 1] := Node(width as Coord, 0xffff, Null);
      this.width, this.height, this.numNodes, pool := width, height, numNodes, nodes;
      heuristic := BottomLeft;
      freeHead, activeHead := To(0), To(numNodes);
      align := (width + numNodes - 1) / numNodes;
      active, free, boxes, exact := [numNodes, numNodes + 1], UpTo(0, numNodes), [], true;
      new;
      AlignIsCeiling(width, numNodes);
      UserNodesLinked(pool[..], 0, numNodes);
      EveryoneIsListed(numNodes);
    }

    // Quantising widths is what the packer does unless it is allowed to run out of nodes.
    method SetupAllowOutOfMem(allow: bool)
      requires Valid()
      modifies `align
      ensures Valid() && align == if allow then 1 else (width + numNodes - 1) / numNodes
    {
      AlignIsCeiling(width, numNodes);
      align := if allow then 1 else (width + numNodes - 1) / numNodes;
    }

    method SetupHeuristic(h: Heuristic)
      requires Valid()
      modifies `heuristic
      ensures Valid() && heuristic == h
    {
      heuristic := h;
    }

    // Widths are rounded up to the alignment; what cannot fit at all is refused at once.
    method FindBestPos(w: nat, h: nat, ghost line: Line) returns (found: bool, x: nat, y: nat, prev: Link, ghost i: nat)
      requires Valid() && w > 0 && line == Line()
      ensures Valid() && line == Line() && pool[..] == old(pool[..])
      ensures found ==> LinkTo(active, i, prev) && Placeable(line, width, Aligned(w, align), i, x, y)
      ensures if found && y + h <= height then Chosen(line, width, height, Aligned(w, align), h, heuristic, x, y)
              else NoRoom(line, width, height, Aligned(w, align), h)
    {
      AlignedIsAtLeast(w, align);
      var aligned := w + (align - 1);
      aligned := aligned - aligned % align;
      assert aligned == Aligned(w, align);
      if aligned > width || h > height { return false, 0, 0, Null, 0; }
      found, prev, x, y, i :=
        Search(pool, pool[..], active, line, width, activeHead.id, heuristic, h, aligned, height);
      FoundIsChosen(line, width, height, aligned, h, heuristic, found, i, x, y);
    }

    // Takes a node off the free list and gives it the corner of the raised stretch.
    method TakeNode(x: nat, top: nat, ghost line: Line) returns (node: nat)
      requires Linked() && line == Line() && x <= 0xffff && top <= 0xffff && freeHead != Null
      modifies this`freeHead, pool
      ensures free != [] && Path(pool[..], active, activeHead, Null) && Path(pool[..], free[1..], freeHead, Null)
      ensures Everyone(multiset(active) + multiset{node} + multiset(free[1..]), pool.Length)
      ensures node < pool.Length && node !in active && pool[node].x as nat == x && pool[node].y as nat == top
      ensures Within(active, pool.Length) && LineOf(pool[..], active) == line
    {
      ghost var p := pool[..];
      ghost var raised := Node(x as Coord, top as Coord, p[freeHead.id].next);
      TakeFirstFree(p, active, activeHead, free, freeHead, raised);
      assert multiset(free) == multiset{free[0]} + multiset(free[1..]) by { assert free == [free[0]] + free[1..]; }
      node := freeHead.id;
      pool[node] := Node(x as Coord, top as Coord, pool[node].next);
      freeHead := pool[node].next;
      LineKept(p, active, node, raised);
      assert pool[..] == p[node := raised];
      assert multiset(active) + multiset{node} + multiset(free[1..]) == multiset(active) + multiset(free);
    }

    // Makes the link at the position point to the new node; `cur` is the first node after it that may
    // have to go.
    method LinkIn(prev: Link, node: nat, x: nat, ghost i: nat, ghost s: nat, ghost line: Line) returns (cur: nat)
      requires free != [] && Path(pool[..], active, activeHead, Null) && Path(pool[..], free[1..], freeHead, Null)
      requires Everyone(multiset(active) + multiset{node} + multiset(free[1..]), pool.Length) && node !in active
      requires Within(active, pool.Length) && LineOf(pool[..], active) == line
      requires Covers(line, i, x) && LinkTo(active, i, prev) && s == First(line, i, x)
      modifies this`activeHead, pool
      ensures s < |active| && cur == active[s]
      ensures CutOpen(pool[..], active[..s], activeHead, node, active[s..], free[1..], freeHead)
      ensures SameCorners(old(pool[..]), pool[..])
    {
      ghost var q := pool[..];
      PathAt(q, active, activeHead, Null, i);
      if i > 0 { PathAt(q, active, activeHead, Null, i - 1); }
      cur := if prev == Null then activeHead.id else pool[prev.id].next.id;
      assert cur == active[i] && q[cur].x as nat == line[i].x;
      if pool[cur].x as nat < x {
        Redirect(q, active, activeHead, node, free[1..], freeHead, i + 1);
        var next := pool[cur].next;
        pool[cur] := pool[cur].(next := To(node));
        assert pool[..] == q[cur := q[cur].(next := To(node))];
        cur := next.id;
      } else if prev == Null {
        RedirectHead(q, active, activeHead, node, free[1..], freeHead);
        activeHead := To(node);
        assert active[..0] == [] && active[0..] == active;
      } else {
        Redirect(q, active, activeHead, node, free[1..], freeHead, i);
        pool[prev.id] := pool[prev.id].(next := To(node));
        assert pool[..] == q[prev.id := q[prev.id].(next := To(node))];
      }
    }

    // Moves the first node behind the cut to the free list.
    method FreeOne(cur: nat, ghost left: seq<nat>, ghost node: nat, ghost right: seq<nat>, ghost fr: seq<nat>)
      returns (next: nat)
      requires CutOpen(pool[..], left, activeHead, node, right, fr, freeHead) && |right| > 1 && cur == right[0]
      modifies this`freeHead, pool
      ensures CutOpen(pool[..], left, activeHead, node, right[1..], [cur] + fr, freeHead) && next == right[1]
      ensures SameCorners(old(pool[..]), pool[..])
    {
      ghost var p := pool[..];
      MoveToFree(p, left, activeHead, node, right, fr, freeHead);
      next := pool[cur].next.id;
      pool[cur] := pool[cur].(next := freeHead);
      assert pool[..] == p[cur := p[cur].(next := freeHead)];
      freeHead := To(cur);
    }

    // The same for node k of a list, and what the next one links to.
    method FreeNext(cur: nat, ghost left: seq<nat>, ghost node: nat, ghost act: seq<nat>, ghost k: nat, ghost fr: seq<nat>,
                    ghost p: Pool, ghost line: Line)
      returns (next: nat)
      requires SameCorners(p, pool[..]) && Within(act, |p|) && LineOf(p, act) == line
      requires k + 1 < |act| && cur == act[k] && CutOpen(pool[..], left, activeHead, node, act[k..], fr, freeHead)
      modifies this`freeHead, pool
      ensures CutOpen(pool[..], left, activeHead, node, act[k + 1..], [cur] + fr, freeHead) && next == act[k + 1]
      ensures next < pool.Length && pool[next].next == if k + 2 < |act| then To(act[k + 2]) else Null
      ensures SameCorners(p, pool[..])
      ensures k + 2 < |act| ==> pool[act[k + 2]].x as nat == line[k + 2].x
    {
      TailOfTail(act, k);
      next := FreeOne(cur, left, node, act[k..], fr);
      NextBehindCut(pool[..], left, activeHead, node, act[k + 1..], [cur] + fr, freeHead);
    }

    // Moves the covered nodes behind the cut to the free list, up to the one whose segment reaches
    // beyond `right`.
    method FreeCovered(first: nat, right: nat, ghost left: seq<nat>, ghost node: nat, ghost act: seq<nat>, ghost s: nat,
                       ghost fr: seq<nat>, ghost line: Line)
      returns (cur: nat, ghost k: nat, ghost freed: seq<nat>)
      requires s < |act| && first == act[s]
      requires CutOpen(pool[..], left, activeHead, node, act[s..], fr, freeHead)
      requires Within(act, pool.Length) && LineOf(pool[..], act) == line
      modifies this`freeHead, pool
      ensures k < |act| && IsKept(line, s, right, k) && cur == act[k]
      ensures CutOpen(pool[..], left, activeHead, node, act[k..], freed, freeHead)
      ensures SameCorners(old(pool[..]), pool[..]) && LineOf(pool[..], act) == line
    {
      cur, k, freed := first, s, fr;
      ghost var p := pool[..];
      NextBehindCut(pool[..], left, activeHead, node, act[k..], freed, freeHead);
      while pool[cur].next != Null && pool[pool[cur].next.id].x as nat <= right
        invariant s <= k < |act| && cur == act[k]
        invariant forall j :: s < j <= k ==> line[j].x <= right
        invariant CutOpen(pool[..], left, activeHead, node, act[k..], freed, freeHead)
        invariant SameCorners(p, pool[..])
        invariant cur < pool.Length && pool[cur].next == if k + 1 < |act| then To(act[k + 1]) else Null
        invariant k + 1 < |act| ==> pool[act[k + 1]].x as nat == line[k + 1].x
        decreases |act| - k
      {
        var next := FreeNext(cur, left, node, act, k, freed, p, line);
        cur, k, freed := next, k + 1, [cur] + freed;
      }
      SameLine(p, pool[..], act);
    }

    // Cuts the active list open at the position and frees the covered nodes.
    method CutOut(prev: Link, x: nat, w: nat, top: nat, ghost i: nat, ghost s: nat, ghost line: Line)
      returns (node: nat, cur: nat, ghost k: nat, ghost freed: seq<nat>)
      requires Linked() && line == Line() && IsSkyline(line, width) && width <= 0xffff
      requires Covers(line, i, x) && LinkTo(active, i, prev) && x + w <= width && top <= 0xffff && freeHead != Null
      requires s == First(line, i, x)
      modifies this`activeHead, this`freeHead, pool
      ensures k < |active| && IsKept(line, s, x + w, k) && cur == active[k] && node !in active
      ensures CutOpen(pool[..], active[..s], activeHead, node, active[k..], freed, freeHead)
      ensures node < pool.Length && pool[node].x as nat == x && pool[node].y as nat == top
      ensures Within(active, pool.Length) && LineOf(pool[..], active) == line
    {
      node := TakeNode(x, top, line);
      ghost var p := pool[..];
      cur := LinkIn(prev, node, x, i, s, line);
      SameLine(p, pool[..], active);
      cur, k, freed := FreeCovered(cur, x + w, active[..s], node, active, s, free[1..], line);
      assert p[node].x == pool[node].x && p[node].y == pool[node].y;
    }

    // Links a free node in for the raised stretch and returns the nodes it covers to the free list.
    method Stitch(prev: Link, x: nat, w: nat, top: nat, ghost i: nat, ghost line: Line)
      requires Linked() && line == Line() && IsSkyline(line, width) && width <= 0xffff
      requires Covers(line, i, x) && LinkTo(active, i, prev) && x + w <= width && top <= 0xffff && freeHead != Null
      modifies this`activeHead, this`freeHead, this`active, this`free, pool
      ensures Linked() && Line() == Placed(line, i, x, w, top)
    {
      ghost var s := First(line, i, x);
      var node, cur;
      ghost var k, freed;
      node, cur, k, freed := CutOut(prev, x, w, top, i, s, line);
      ghost var q, act := pool[..], active;
      CutOnce(q, act[..s], activeHead, node, act[k..], freed, freeHead);
      Close(node, cur, x + w, act[..s], act[k..], freed);
      StitchedLine(q, pool[..], act, node, s, k, line, i, x, w, top);
    }

    method Close(node: nat, cur: nat, edge: nat, ghost left: seq<nat>, ghost right: seq<nat>, ghost freed: seq<nat>)
      requires pool.Length == numNodes + 2 && edge <= 0xffff && node != cur
      requires CutOpen(pool[..], left, activeHead, node, right, freed, freeHead) && cur == right[0]
      modifies this`active, this`free, pool
      ensures Linked() && active == left + [node] + right
      ensures node < pool.Length && MovedTo(old(pool[..]), pool[..], cur, edge)
    {
      ghost var p := pool[..];
      CloseUp(p, left, activeHead, node, right, freed, freeHead);
      NextBehindCut(p, left, activeHead, node, right, freed, freeHead);
      pool[node] := pool[node].(next := To(cur));
      ghost var q := pool[..];
      assert q == p[node := p[node].(next := To(right[0]))];
      active, free := left + [node] + right, freed;
      PathWithin(q, active, activeHead, Null);
      if pool[cur].x as nat < edge {
        ghost var moved := q[cur].(x := edge as Coord);
        PathKeepsNext(q, active, activeHead, Null, cur, moved);
        PathKeepsNext(q, free, freeHead, Null, cur, moved);
        pool[cur] := pool[cur].(x := edge as Coord);
        assert pool[..] == q[cur := moved];
      }
    }

    // Puts a box at a position the search found.
    method Put(prev: Link, x: nat, y: nat, w: nat, h: nat, clear: nat, ghost i: nat, ghost line: Line)
      requires Valid() && line == Line() && w > 0 && h > 0 && freeHead != Null
      requires Placeable(line, width, clear, i, x, y) && w <= clear && y + h <= height && LinkTo(active, i, prev)
      requires numNodes >= width ==> clear == w
      modifies this`activeHead, this`freeHead, this`active, this`free, this`boxes, this`exact, pool
      ensures Valid() && boxes == old(boxes) + [Box(x, y, w, h)] && exact == (old(exact) && clear == w)
      ensures clear == w ==> Raised(line, Line(), width, x, w, y + h)
      ensures Line() == Placed(line, i, x, w, y + h)
    {
      ghost var next := Placed(line, i, x, w, y + h);
      BoxPut(boxes, line, width, height, i, Box(x, y, w, h), clear, next);
      if exact && clear == w { TightStaysTight(boxes, line, width, Box(x, y, w, h), next); }
      boxes, exact := boxes + [Box(x, y, w, h)], exact && clear == w;
      Stitch(prev, x, w, y + h, i, line);
      assert Line() == next;
    }

    // Packs one rectangle, or says that it cannot: then either no node is free, or no window as wide as
    // the (aligned) rectangle leaves room for its height. A packed rectangle lies on the lowest clear
    // height there is, bottom left also at the leftmost place with that height.
    method PackRectangle(w: nat, h: nat) returns (packed: bool, x: nat, y: nat, ghost i: nat)
      requires Valid() && w > 0 && h > 0
      modifies this`activeHead, this`freeHead, this`active, this`free, this`boxes, this`exact, pool
      ensures Valid()
      ensures packed ==> boxes == old(boxes) + [Box(x, y, w, h)]
      ensures packed ==> Chosen(old(Line()), width, height, Aligned(w, align), h, heuristic, x, y)
      ensures packed && old(exact) ==> Rests(old(boxes), x, Aligned(w, align), y)
      ensures packed ==> exact == (old(exact) && Aligned(w, align) == w)
      ensures packed && align == 1 ==> Raised(old(Line()), Line(), width, x, w, y + h)
      ensures packed ==> Covers(old(Line()), i, x) && Line() == Placed(old(Line()), i, x, w, y + h)
      ensures !packed ==> boxes == old(boxes) && exact == old(exact) && Line() == old(Line())
      ensures !packed ==> old(freeHead == Null || NoRoom(Line(), width, height, Aligned(w, align), h))
    {
      ghost var line := Line();
      AlignedIsAtLeast(w, align);
      var found, prev;
      found, x, y, prev, i := FindBestPos(w, h, line);
      packed := found && y + h <= height && freeHead != Null;
      if packed && exact { TopIsCarried(boxes, line, width, x, Aligned(w, align)); }
      if packed { Put(prev, x, y, w, h, Aligned(w, align), i, line); }
    }

    // With a node for every column the free list never runs out.
    lemma NeverOutOfNodes()
      requires Valid() && numNodes >= width
      ensures freeHead != Null
    {
      CornersAreFew(Line(), width);
      if freeHead == Null {
        var none := multiset(free);
        assert free == [] && none == multiset{};
        assert multiset(active) + none == multiset(active);
        SizeOfEveryone(multiset(active), pool.Length);
      }
    }

    // Packs the rectangles in the order they stand in.
    method PackInOrder(rects: array<Rect>) returns (ghost slot: seq<int>, ghost turns: seq<Turn>)
      requires Valid()
      modifies this`activeHead, this`freeHead, this`active, this`free, this`boxes, this`exact, pool, rects
      ensures Valid() && old(boxes) <= boxes
      ensures SameRects(rects[..], old(rects[..]))
      ensures Slots(rects[..], boxes, |old(boxes)|, slot)
      ensures InTurn(slot, turns, |boxes|) && (numNodes >= width ==> Faced(rects[..], turns, boxes, width, height))
    {
      ghost var from, orig := |boxes|, rects[..];
      slot, turns := [], [];
      var i := 0;
      while i < rects.Length
        invariant 0 <= i <= rects.Length
        invariant Valid() && old(boxes) <= boxes
        invariant SameRects(rects[..], orig)
        invariant Slots(rects[..i], boxes, from, slot)
        invariant InTurn(slot, turns, |boxes|) && (numNodes >= width ==> Faced(rects[..i], turns, boxes, width, height))
      {
        ghost var before, was := boxes, rects[..];
        ghost var last, turn := Settle(rects, i);
        assert rects[..i] == was[..i] && rects[..i + 1] == was[..i] + [rects[i]];
        OneMoreSettled(was[..i], rects[i], before, boxes, from, slot, last);
        OneMoreTurn(slot, turns, last, turn, |boxes|);
        if numNodes >= width { OneMoreFaced(was[..i], rects[i], before, boxes, width, height, turns, turn); }
        slot, turns := slot + [last], turns + [turn];
        i := i + 1;
      }
      assert rects[..i] == rects[..];
    }

    // What becomes of one rectangle.
    method Offer(r: Rect) returns (r': Rect, ghost slot: int, ghost turn: Turn)
      requires Valid()
      modifies this`activeHead, this`freeHead, this`active, this`free, this`boxes, this`exact, pool
      ensures Valid() && old(boxes) <= boxes
      ensures slot == if boxes == old(boxes) then -1 else |old(boxes)|
      ensures boxes != old(boxes) ==> |boxes| == |old(boxes)| + 1
      ensures Settled(r', boxes, 0, slot) && SameRect(r', r) && r'.wasPacked == r.wasPacked
      ensures turn.count == |old(boxes)| && (numNodes >= width ==> Faces(r', turn, boxes, width, height))
    {
      slot, turn := -1, Turn(|boxes|, Line());
      ghost var before := boxes;
      if r.w == 0 || r.h == 0 {
        r' := r.(x := 0, y := 0);
      } else {
        var packed, x, y;
        ghost var i;
        if numNodes >= width { NeverOutOfNodes(); }
        packed, x, y, i := PackRectangle(r.w as nat, r.h as nat);
        AlignedByOne(r.w as nat);
        if packed {
          slot := |boxes| - 1;
          assert boxes[slot].x + boxes[slot].w <= width && boxes[slot].y + boxes[slot].h <= height;
          r' := r.(x := x as Coord, y := y as Coord);
        } else {
          r' := r.(x := MAXVAL, y := MAXVAL);
        }
      }
      if numNodes >= width { TurnFaced(r', turn, before, boxes, width, height); }
    }

    method Settle(rects: array<Rect>, i: nat) returns (ghost slot: int, ghost turn: Turn)
      requires Valid() && i < rects.Length
      modifies this`activeHead, this`freeHead, this`active, this`free, this`boxes, this`exact, pool, rects
      ensures Valid() && old(boxes) <= boxes
      ensures slot == if boxes == old(boxes) then -1 else |old(boxes)|
      ensures boxes != old(boxes) ==> |boxes| == |old(boxes)| + 1
      ensures Settled(rects[i], boxes, 0, slot)
      ensures SameRect(rects[i], old(rects[i])) && rects[i].wasPacked == old(rects[i].wasPacked)
      ensures rects[..] == old(rects[..])[i := rects[i]]
      ensures turn.count == |old(boxes)| && (numNodes >= width ==> Faces(rects[i], turn, boxes, width, height))
    {
      var r;
      r, slot, turn := Offer(rects[i]);
      rects[i] := r;
    }

    // Packs tagged rectangles, taller ones first, and puts them back in the order of their tags.
    method PackBySize(rects: array<Rect>) returns (ghost slot: seq<int>, ghost turns: seq<Turn>)
      requires Valid() && forall k :: 0 <= k < rects.Length ==> rects[k].wasPacked == k
      modifies this`activeHead, this`freeHead, this`active, this`free, this`boxes, this`exact, pool, rects
      ensures Valid() && old(boxes) <= boxes
      ensures forall k :: 0 <= k < rects.Length ==> SameRect(rects[k], old(rects[k]))
      ensures Slots(rects[..], boxes, |old(boxes)|, slot)
      ensures ByRank(rects[..], slot, turns) && (numNodes >= width ==> Faced(rects[..], turns, boxes, width, height))
    {
      ghost var s0 := rects[..];
      ComparesOrder();
      ghost var perm1 := Sort(rects, HeightCompare);
      ghost var s1 := rects[..];
      slot, turns := PackInOrder(rects);
      ghost var s2 := rects[..];
      ghost var perm2 := Sort(rects, OriginalOrder);
      ghost var moved := SlotsPermuted(rects[..], s2, perm2, boxes, |old(boxes)|, slot);
      ghost var was := turns;
      turns := RankPermuted(rects[..], s1, s2, perm2, slot, moved, was, |boxes|);
      if numNodes >= width { FacedPermuted(rects[..], s2, perm2, boxes, width, height, was, turns); }
      slot := moved;
      BackInOrder(s0, s1, s2, rects[..], perm1, perm2);
    }

    // Packs a batch: taller rectangles first, and the array back in its own order afterwards. With a node for
    // every column a rectangle is refused only if no window leaves room on the skyline of its turn.
    method PackRects(rects: array<Rect>) returns (all: bool, ghost slot: seq<int>, ghost turns: seq<Turn>)
      requires Valid()
      modifies this`activeHead, this`freeHead, this`active, this`free, this`boxes, this`exact, pool, rects
      ensures Valid() && old(boxes) <= boxes
      ensures forall k :: 0 <= k < rects.Length ==> SameRect(rects[k], old(rects[k]))
      ensures Slots(rects[..], boxes, |old(boxes)|, slot)
      ensures ByRank(rects[..], slot, turns) && (numNodes >= width ==> Faced(rects[..], turns, boxes, width, height))
      ensures forall k :: 0 <= k < rects.Length ==> rects[k].wasPacked == if Refused(rects[k]) then 0 else 1
      ensures all <==> forall k :: 0 <= k < rects.Length ==> rects[k].wasPacked == 1
    {
      TagAll(rects);
      slot, turns := PackBySize(rects);
      ghost var s3 := rects[..];
      all := FlagAll(rects, s3);
      SlotsIgnoreFlags(s3, rects[..], boxes, |old(boxes)|, slot);
      RankIgnoresFlags(s3, rects[..], slot, turns);
      if numNodes >= width { FacedIgnoresFlags(s3, rects[..], boxes, width, height, turns); }
    }
  }

  method TagAll(rects: array<Rect>)
    modifies rects
    ensures forall k :: 0 <= k < rects.Length ==> rects[k] == old(rects[k]).(wasPacked := k)
  {
    var i := 0;
    while i < rects.Length
      invariant 0 <= i <= rects.Length
      invariant forall k :: 0 <= k < i ==> rects[k] == old(rects[k]).(wasPacked := k)
      invariant forall k :: i <= k < rects.Length ==> rects[k] == old(rects[k])
    {
      rects[i] := rects[i].(wasPacked := i);
      i := i + 1;
    }
  }

  method FlagAll(rects: array<Rect>, ghost s: seq<Rect>) returns (all: bool)
    requires s == rects[..]
    modifies rects
    ensures forall k :: 0 <= k < |s| ==> rects[k] == s[k].(wasPacked := if Refused(s[k]) then 0 else 1)
    ensures all <==> forall k :: 0 <= k < rects.Length ==> rects[k].wasPacked == 1
  {
    var i := 0;
    all := true;
    while i < rects.Length
      invariant 0 <= i <= rects.Length
      invariant forall k :: 0 <= k < i ==> rects[k] == s[k].(wasPacked := if Refused(s[k]) then 0 else 1)
      invariant forall k :: i <= k < rects.Length ==> rects[k] == s[k]
      invariant all <==> forall k :: 0 <= k < i ==> rects[k].wasPacked == 1
    {
      var packed := !Refused(rects[i]);
      rects[i] := rects[i].(wasPacked := if packed then 1 else 0);
      if !packed { all := false; }
      i := i + 1;
    }
  }

  lemma ComparesOrder()
    ensures Orders(HeightCompare) && Orders(OriginalOrder)
  {
  }

  lemma SlotsIgnoreFlags(s: seq<Rect>, t: seq<Rect>, boxes: seq<Box>, from: nat, slot: seq<int>)
    requires Slots(s, boxes, from, slot) && |t| == |s|
    requires forall k :: 0 <= k < |s| ==> t[k] == s[k].(wasPacked := t[k].wasPacked)
    ensures Slots(t, boxes, from, slot)
  {
  }

  // Sorting by the tags undoes sorting by height.
  lemma BackInOrder(s0: seq<Rect>, s1: seq<Rect>, s2: seq<Rect>, s3: seq<Rect>, perm1: seq<nat>, perm2: seq<nat>)
    requires forall k :: 0 <= k < |s0| ==> s0[k].wasPacked == k
    requires Permuted(s1, s0, perm1) && SameRects(s2, s1) && Permuted(s3, s2, perm2) && SortedTo(s3, |s3|, OriginalOrder)
    ensures |s3| == |s0| && forall k :: 0 <= k < |s0| ==> SameRect(s3[k], s0[k])
  {
    var n := |s0|;
    var tags: seq<nat> := seq(n, k requires 0 <= k < n => perm1[perm2[k]]);
    forall k | 0 <= k < n ensures s3[k].wasPacked == tags[k] && SameRect(s3[k], s0[tags[k]]) {
      assert s3[k] == s2[perm2[k]] && s1[perm2[k]] == s0[perm1[perm2[k]]];
    }
    forall i, j | 0 <= i < j < n ensures tags[i] < tags[j] {
      assert OriginalOrder(s3[i], s3[j]) <= 0;
      assert perm2[i] != perm2[j];
    }
    forall k | 0 <= k < n ensures tags[k] == k { AscendingTags(tags, n, k); }
  }

  lemma {:induction false} SizeOfEveryone(ids: multiset<nat>, n: nat)
    requires Everyone(ids, n)
    ensures |ids| == n
  {
    if n == 0 {
      assert ids == multiset{};
    } else {
      var rest := ids - multiset{n - 1};
      assert ids[n - 1] == 1;
      assert rest + multiset{n - 1} == ids;
      forall id: nat ensures rest[id] == if id < n - 1 then 1 else 0 { assert ids[id] == if id < n then 1 else 0; }
      SizeOfEveryone(rest, n - 1);
    }
  }

  // ---- rectangles

  datatype Rect = Rect(id: int, w: Coord, h: Coord, x: Coord, y: Coord, wasPacked: int)

  // Taller first, then wider first.
  function HeightCompare(p: Rect, q: Rect): int {
    if p.h > q.h then -1 else if p.h < q.h then 1
    else if p.w > q.w then -1 else if p.w < q.w then 1 else 0
  }

  function OriginalOrder(p: Rect, q: Rect): int {
    if p.wasPacked < q.wasPacked then -1 else if p.wasPacked > q.wasPacked then 1 else 0
  }

  // A comparison a sort may rely on.
  ghost predicate Orders(cmp: (Rect, Rect) -> int) {
    && (forall p, q :: cmp(p, q) <= 0 || cmp(q, p) <= 0)
    && (forall p, q, r :: cmp(p, q) <= 0 && cmp(q, r) <= 0 ==> cmp(p, r) <= 0)
  }

  ghost predicate Permutation(perm: seq<nat>, n: nat) {
    && |perm| == n && (forall k :: 0 <= k < n ==> perm[k] < n)
    && (forall j, k :: 0 <= j < k < n ==> perm[j] != perm[k])
    && forall v :: 0 <= v < n ==> v in perm
  }

  ghost predicate Permuted(s: seq<Rect>, t: seq<Rect>, perm: seq<nat>) {
    |s| == |t| && Permutation(perm, |s|) && forall k :: 0 <= k < |s| ==> s[k] == t[perm[k]]
  }

  method Least(rects: array<Rect>, ghost s: seq<Rect>, from: nat, cmp: (Rect, Rect) -> int) returns (m: nat)
    requires s == rects[..] && from < |s| && Orders(cmp)
    ensures from <= m < |s| && forall k :: from <= k < |s| ==> cmp(s[m], s[k]) <= 0
  {
    m := from;
    var i := from + 1;
    while i < rects.Length
      invariant from <= m < i <= rects.Length
      invariant forall k :: from <= k < i ==> cmp(s[m], s[k]) <= 0
    {
      if cmp(rects[m], rects[i]) > 0 {
        assert cmp(s[i], s[m]) <= 0;
        m := i;
      }
      i := i + 1;
    }
  }

  function Swapped<T>(s: seq<T>, i: nat, m: nat): seq<T>
    requires i < |s| && m < |s|
  {
    s[i := s[m]][m := s[i]]
  }

  lemma SwapPermutes(s: seq<Rect>, t: seq<Rect>, perm: seq<nat>, i: nat, m: nat)
    requires Permuted(s, t, perm) && i < |s| && m < |s|
    ensures Permuted(Swapped(s, i, m), t, Swapped(perm, i, m))
  {
    var next := Swapped(perm, i, m);
    forall v | 0 <= v < |perm| ensures v in next {
      assert v in perm;
      var k :| 0 <= k < |perm| && perm[k] == v;
      assert next[if k == i then m else if k == m then i else k] == v;
    }
  }

  ghost predicate SortedTo(s: seq<Rect>, i: nat, cmp: (Rect, Rect) -> int) {
    forall j, k :: 0 <= j < i && j < k < |s| ==> cmp(s[j], s[k]) <= 0
  }

  lemma LeastExtends(s: seq<Rect>, i: nat, m: nat, cmp: (Rect, Rect) -> int)
    requires i <= m < |s| && SortedTo(s, i, cmp)
    requires forall k :: i <= k < |s| ==> cmp(s[m], s[k]) <= 0
    ensures SortedTo(Swapped(s, i, m), i + 1, cmp)
  {
    var t := Swapped(s, i, m);
    forall j, k | 0 <= j < i + 1 && j < k < |t| ensures cmp(t[j], t[k]) <= 0 {
      var k' := if k == i then m else if k == m then i else k;
      assert t[k] == s[k'];
      if j < i { assert t[j] == s[j]; } else { assert t[j] == s[m]; }
    }
  }

  // Any sort will do: equal elements may end in any order.
  method Sort(rects: array<Rect>, cmp: (Rect, Rect) -> int) returns (ghost perm: seq<nat>)
    requires Orders(cmp)
    modifies rects
    ensures Permuted(rects[..], old(rects[..]), perm)
    ensures SortedTo(rects[..], rects.Length, cmp)
  {
    ghost var orig := rects[..];
    perm := seq(rects.Length, i => i);
    forall v | 0 <= v < |perm| ensures v in perm { assert perm[v] == v; }
    var i := 0;
    while i < rects.Length
      invariant 0 <= i <= rects.Length
      invariant Permuted(rects[..], orig, perm) && SortedTo(rects[..], i, cmp)
    {
      perm := SortStep(rects, i, cmp, orig, perm);
      i := i + 1;
    }
  }

  method SortStep(rects: array<Rect>, i: nat, cmp: (Rect, Rect) -> int, ghost orig: seq<Rect>, ghost perm0: seq<nat>)
    returns (ghost perm: seq<nat>)
    requires i < rects.Length && Orders(cmp) && Permuted(rects[..], orig, perm0) && SortedTo(rects[..], i, cmp)
    modifies rects
    ensures Permuted(rects[..], orig, perm) && SortedTo(rects[..], i + 1, cmp)
  {
    ghost var before := rects[..];
    var m := Least(rects, before, i, cmp);
    SwapPermutes(before, orig, perm0, i, m);
    LeastExtends(before, i, m, cmp);
    rects[i], rects[m] := rects[m], rects[i];
    perm := Swapped(perm0, i, m);
    assert rects[..] == Swapped(before, i, m);
  }

  // ---- packing a batch

  function BoxOf(r: Rect): Box {
    Box(r.x as nat, r.y as nat, r.w as nat, r.h as nat)
  }

  predicate IsEmpty(r: Rect) {
    r.w == 0 || r.h == 0
  }

  predicate Refused(r: Rect) {
    r.x == MAXVAL && r.y == MAXVAL
  }

  // Same rectangle, wherever it was put.
  predicate SameRect(p: Rect, q: Rect) {
    p.id == q.id && p.w == q.w && p.h == q.h
  }

  // Same rectangles in the same places of the array.
  ghost predicate SameRects(s: seq<Rect>, t: seq<Rect>) {
    |s| == |t| && forall k :: 0 <= k < |s| ==> SameRect(s[k], t[k]) && s[k].wasPacked == t[k].wasPacked
  }

  // What packing did to each rectangle: an empty one sits at the origin, one that was refused is marked
  // by coordinates no packed rectangle can have, and any other is box slot[k].
  ghost predicate Settled(r: Rect, boxes: seq<Box>, from: nat, slot: int) {
    if IsEmpty(r) then r.x == 0 && r.y == 0 && slot == -1
    else if Refused(r) then slot == -1
    else from <= slot < |boxes| && boxes[slot] == BoxOf(r)
  }

  // Distinct rectangles got distinct boxes, and every new box belongs to a rectangle.
  ghost predicate Slots(rects: seq<Rect>, boxes: seq<Box>, from: nat, slot: seq<int>) {
    && |slot| == |rects| && from <= |boxes|
    && (forall k :: 0 <= k < |rects| ==> Settled(rects[k], boxes, from, slot[k]))
    && (forall j, k :: 0 <= j < |rects| && 0 <= k < |rects| && j != k && slot[j] != -1 ==> slot[j] != slot[k])
    && (forall b :: from <= b < |boxes| ==> b in slot)
  }

  // Boxes packed later change nothing for the rectangles already settled.
  lemma OneMoreSettled(rects: seq<Rect>, r: Rect, boxes: seq<Box>, more: seq<Box>, from: nat, slot: seq<int>, last: int)
    requires Slots(rects, boxes, from, slot) && boxes <= more
    requires Settled(r, more, from, last) && (last == -1 <==> more == boxes) && (last != -1 ==> last == |boxes| == |more| - 1)
    ensures Slots(rects + [r], more, from, slot + [last])
  {
    forall b | from <= b < |more| ensures b in slot + [last] {
      if b < |boxes| { assert b in slot; }
    }
  }

  lemma SlotsPermuted(s: seq<Rect>, t: seq<Rect>, perm: seq<nat>, boxes: seq<Box>, from: nat, slot: seq<int>) returns (moved: seq<int>)
    requires Permuted(s, t, perm) && Slots(t, boxes, from, slot)
    ensures Slots(s, boxes, from, moved) && forall k :: 0 <= k < |s| ==> moved[k] == slot[perm[k]]
  {
    moved := seq(|s|, k requires 0 <= k < |s| => slot[perm[k]]);
    forall j, k | 0 <= j < |s| && 0 <= k < |s| && j != k && moved[j] != -1 ensures moved[j] != moved[k] {
      assert perm[j] != perm[k];
    }
    forall b | from <= b < |boxes| ensures b in moved {
      assert b in slot;
      var v :| 0 <= v < |slot| && slot[v] == b;
      assert v in perm;
      var k :| 0 <= k < |perm| && perm[k] == v;
      assert moved[k] == b;
    }
  }

  // How many boxes there were when the turn of a rectangle came, and the skyline then.
  datatype Turn = Turn(count: nat, line: Line)

  // The skyline is the one of the boxes so far; a rectangle refused found no room on it.
  ghost predicate Faces(r: Rect, turn: Turn, boxes: seq<Box>, width: nat, height: nat) {
    && turn.count <= |boxes| && IsSkyline(turn.line, width)
    && Below(boxes[..turn.count], turn.line) && Tight(boxes[..turn.count], turn.line, width)
    && (!IsEmpty(r) && Refused(r) ==> NoRoom(turn.line, width, height, r.w as nat, r.h as nat))
  }

  ghost predicate Faced(rects: seq<Rect>, turns: seq<Turn>, boxes: seq<Box>, width: nat, height: nat) {
    |turns| == |rects| && forall k :: 0 <= k < |rects| ==> Faces(rects[k], turns[k], boxes, width, height)
  }

  lemma TurnFaced(r: Rect, turn: Turn, before: seq<Box>, boxes: seq<Box>, width: nat, height: nat)
    requires before <= boxes && turn.count == |before| && IsSkyline(turn.line, width)
    requires Below(before, turn.line) && Tight(before, turn.line, width)
    requires !IsEmpty(r) && Refused(r) ==> NoRoom(turn.line, width, height, r.w as nat, r.h as nat)
    ensures Faces(r, turn, boxes, width, height)
  {
    assert boxes[..turn.count] == before;
  }

  // In the order of the array: the boxes of a rectangle's turn are those of the rectangles before it.
  ghost predicate InTurn(slot: seq<int>, turns: seq<Turn>, n: nat) {
    && |slot| == |turns| && (forall k :: 0 <= k < |turns| ==> turns[k].count <= n && slot[k] < n)
    && (forall j, k :: 0 <= j < k < |slot| && slot[j] != -1 ==> slot[j] < turns[k].count)
    && (forall j, k :: 0 <= k <= j < |slot| && slot[j] != -1 ==> turns[k].count <= slot[j])
  }

  // Taller, or as tall and wider.
  predicate Larger(p: Rect, q: Rect) { p.h > q.h || (p.h == q.h && p.w > q.w) }

  // In the order of size: boxes of larger rectangles were there, and none of smaller ones.
  ghost predicate ByRank(rects: seq<Rect>, slot: seq<int>, turns: seq<Turn>) {
    && |slot| == |turns| == |rects|
    && (forall j, k :: 0 <= j < |rects| && 0 <= k < |rects| && slot[j] != -1 && Larger(rects[j], rects[k]) ==>
          slot[j] < turns[k].count)
    && (forall j, k :: 0 <= j < |rects| && 0 <= k < |rects| && slot[j] != -1 && Larger(rects[k], rects[j]) ==>
          turns[k].count <= slot[j])
  }

  lemma OneMoreFaced(rects: seq<Rect>, r: Rect, before: seq<Box>, boxes: seq<Box>, width: nat, height: nat,
                     turns: seq<Turn>, turn: Turn)
    requires Faced(rects, turns, before, width, height) && before <= boxes && Faces(r, turn, boxes, width, height)
    ensures Faced(rects + [r], turns + [turn], boxes, width, height)
  {
    forall k | 0 <= k < |rects| ensures Faces(rects[k], turns[k], boxes, width, height) {
      assert boxes[..turns[k].count] == before[..turns[k].count];
    }
  }

  lemma OneMoreTurn(slot: seq<int>, turns: seq<Turn>, last: int, turn: Turn, n: nat)
    requires InTurn(slot, turns, turn.count) && turn.count <= n
    requires last == -1 || last == turn.count < n
    ensures InTurn(slot + [last], turns + [turn], n)
  {
  }

  lemma FacedPermuted(s: seq<Rect>, t: seq<Rect>, perm: seq<nat>, boxes: seq<Box>, width: nat, height: nat,
                      turns: seq<Turn>, moved: seq<Turn>)
    requires Permuted(s, t, perm) && Faced(t, turns, boxes, width, height)
    requires |moved| == |s| && forall k :: 0 <= k < |s| ==> moved[k] == turns[perm[k]]
    ensures Faced(s, moved, boxes, width, height)
  {
  }

  lemma RankPermuted(s: seq<Rect>, sorted: seq<Rect>, t: seq<Rect>, perm: seq<nat>, slot: seq<int>, slot': seq<int>, turns: seq<Turn>, n: nat)
      returns (moved: seq<Turn>)
    requires Permuted(s, t, perm) && SameRects(t, sorted) && SortedTo(sorted, |sorted|, HeightCompare)
    requires InTurn(slot, turns, n) && |slot| == |t|
    requires |slot'| == |s| && forall k :: 0 <= k < |s| ==> slot'[k] == slot[perm[k]]
    ensures |moved| == |s| && forall k :: 0 <= k < |s| ==> moved[k] == turns[perm[k]]
    ensures ByRank(s, slot', moved)
  {
    moved := seq(|s|, k requires 0 <= k < |s| => turns[perm[k]]);
    forall j, k | 0 <= j < |s| && 0 <= k < |s| && Larger(s[j], s[k]) ensures perm[j] < perm[k] {
      RanksAscend(s, sorted, t, perm, j, k);
    }
  }

  lemma RanksAscend(s: seq<Rect>, sorted: seq<Rect>, t: seq<Rect>, perm: seq<nat>, j: nat, k: nat)
    requires Permuted(s, t, perm) && SameRects(t, sorted) && SortedTo(sorted, |sorted|, HeightCompare)
    requires j < |s| && k < |s| && Larger(s[j], s[k])
    ensures perm[j] < perm[k]
  {
    assert s[j] == t[perm[j]] && s[k] == t[perm[k]];
    assert SameRect(t[perm[j]], sorted[perm[j]]) && SameRect(t[perm[k]], sorted[perm[k]]);
  }

  lemma FacedIgnoresFlags(s: seq<Rect>, t: seq<Rect>, boxes: seq<Box>, width: nat, height: nat, turns: seq<Turn>)
    requires Faced(s, turns, boxes, width, height) && |t| == |s|
    requires forall k :: 0 <= k < |s| ==> t[k] == s[k].(wasPacked := t[k].wasPacked)
    ensures Faced(t, turns, boxes, width, height)
  {
  }

  lemma RankIgnoresFlags(s: seq<Rect>, t: seq<Rect>, slot: seq<int>, turns: seq<Turn>)
    requires ByRank(s, slot, turns) && |t| == |s|
    requires forall k :: 0 <= k < |s| ==> t[k] == s[k].(wasPacked := t[k].wasPacked)
    ensures ByRank(t, slot, turns)
  {
    forall j, k | 0 <= j < |s| && 0 <= k < |s| ensures Larger(t[j], t[k]) == Larger(s[j], s[k]) {
    }
  }

  // Whatever was packed before or in the same call, two rectangles never overlap, and all lie inside.
  lemma PackedRectsAreApart(rects: seq<Rect>, boxes: seq<Box>, width: nat, height: nat, from: nat, slot: seq<int>, j: nat)
    requires Packing(boxes, width, height) && Slots(rects, boxes, from, slot)
    requires j < |rects| && !IsEmpty(rects[j]) && !Refused(rects[j])
    ensures rects[j].x as nat + rects[j].w as nat <= width && rects[j].y as nat + rects[j].h as nat <= height
    ensures forall k :: 0 <= k < |rects| && k != j && !IsEmpty(rects[k]) && !Refused(rects[k]) ==>
              Apart(BoxOf(rects[j]), BoxOf(rects[k]))
    ensures forall b :: 0 <= b < from ==> Apart(BoxOf(rects[j]), boxes[b])
  {
    forall k | 0 <= k < |rects| && k != j && !IsEmpty(rects[k]) && !Refused(rects[k])
      ensures Apart(BoxOf(rects[j]), BoxOf(rects[k]))
    {
      if slot[j] < slot[k] { assert Apart(boxes[slot[j]], boxes[slot[k]]); }
      else { assert Apart(boxes[slot[k]], boxes[slot[j]]); }
    }
    forall b | 0 <= b < from ensures Apart(BoxOf(rects[j]), boxes[b]) { assert Apart(boxes[b], boxes[slot[j]]); }
  }

  // Tags 0 to n - 1 in ascending order are the positions themselves.
  lemma {:induction false} AscendingTags(tags: seq<nat>, n: nat, k: nat)
    requires |tags| == n && k < n && forall i, j :: 0 <= i < j < n ==> tags[i] < tags[j]
    requires forall i :: 0 <= i < n ==> tags[i] < n
    ensures tags[k] == k
  {
    AtLeastIndex(tags, k);
    AtMostIndex(tags, n, k);
  }

  lemma {:induction false} AtLeastIndex(tags: seq<nat>, k: nat)
    requires k < |tags| && forall i, j :: 0 <= i < j < |tags| ==> tags[i] < tags[j]
    ensures tags[k] >= k
  {
    if k > 0 { AtLeastIndex(tags, k - 1); }
  }

  lemma {:induction false} AtMostIndex(tags: seq<nat>, n: nat, k: nat)
    requires k < |tags| == n && forall i, j :: 0 <= i < j < n ==> tags[i] < tags[j]
    requires forall i :: 0 <= i < n ==> tags[i] < n
    ensures tags[k] <= k
    decreases n - k
  {
    if k + 1 < n { AtMostIndex(tags, n, k + 1); }
  }

  // The user's nodes, in array order.
  function UpTo(from: nat, n: nat): seq<nat>
    decreases n - from
  {
    if from >= n then [] else [from] + UpTo(from + 1, n)
  }

  lemma {:induction false} UserNodesLinked(pool: Pool, from: nat, n: nat)
    requires from <= n <= |pool| && forall k :: from <= k < n ==> pool[k].next == if k + 1 < n then To(k + 1) else Null
    ensures Path(pool, UpTo(from, n), if from < n then To(from) else Null, Null)
    decreases n - from
  {
    if from < n { UserNodesLinked(pool, from + 1, n); }
  }

  lemma {:induction false} UpToCounts(from: nat, n: nat, id: nat)
    ensures multiset(UpTo(from, n))[id] == if from <= id < n then 1 else 0
    decreases n - from
  {
    if from < n {
      var rest := UpTo(from + 1, n);
      UpToCounts(from + 1, n, id);
      assert UpTo(from, n) == [from] + rest;
      CountFirst(from, rest, id);
    }
  }

  lemma CountFirst(first: nat, rest: seq<nat>, id: nat)
    ensures multiset([first] + rest)[id] == multiset(rest)[id] + if id == first then 1 else 0
  {
    assert multiset([first] + rest) == multiset{first} + multiset(rest);
  }

  lemma EveryoneIsListed(n: nat)
    ensures Everyone(multiset([n, n + 1]) + multiset(UpTo(0, n)), n + 2)
  {
    var extra, user := multiset{n, n + 1}, multiset(UpTo(0, n));
    assert multiset([n, n + 1]) == extra;
    forall id: nat ensures (extra + user)[id] == if id < n + 2 then 1 else 0 {
      UpToCounts(0, n, id);
      assert extra[id] == if id == n || id == n + 1 then 1 else 0;
    }
  }

  // On a target too large for the sums best fit leaves the place that wastes least.
  method LargeTargetPacked() returns (x: nat, ghost was: Line)
    ensures was == LARGE && x == 555
    ensures LeastWaste(was, 65535, 64980, x, 65100) && Waste(was, 0, 64980) < Waste(was, x, 64980)
  {
    var c := new Context(65535, 65535, 65535);
    c.SetupHeuristic(BestFit);
    ghost var flat := c.Line();
    FlatChoice(flat, 65535, 65535, 32000, 65100);
    ghost var i := PackInto(c, flat, 32000, 65100);
    LargeIsPlaced(i);
    was := c.Line();
    LargeTarget(was, 64980);
    x := PackOnto(c, was, 64980, 400, 555);
  }

  method PackOnto(c: Context, ghost line: Line, w: nat, h: nat, ghost best: nat) returns (x: nat)
    requires c.Valid() && c.Line() == line && c.heuristic == BestFit && c.numNodes >= c.width && w > 0 && h > 0
    requires !NoRoom(line, c.width, c.height, w, h)
    requires forall x: nat, y: nat :: LeastWaste(line, c.width, w, x, y) ==> x == best
    modifies c`activeHead, c`freeHead, c`active, c`free, c`boxes, c`exact, c.pool
    ensures x == best
  {
    var packed, y;
    ghost var i;
    c.NeverOutOfNodes();
    AlignedByOne(w);
    packed, x, y, i := c.PackRectangle(w, h);
  }

  // The first box on a flat skyline goes to the left edge.
  method PackInto(c: Context, ghost flat: Line, w: nat, h: nat) returns (ghost i: nat)
    requires c.Valid() && c.Line() == flat && c.heuristic == BestFit && c.numNodes >= c.width && w > 0 && h > 0
    requires !NoRoom(flat, c.width, c.height, w, h)
    requires forall x: nat, y: nat :: LeastWaste(flat, c.width, w, x, y) ==> x == 0 && y == 0
    modifies c`activeHead, c`freeHead, c`active, c`free, c`boxes, c`exact, c.pool
    ensures c.Valid() && Covers(flat, i, 0) && c.Line() == Placed(flat, i, 0, w, h)
  {
    c.NeverOutOfNodes();
    AlignedByOne(w);
    var packed, x, y;
    packed, x, y, i := c.PackRectangle(w, h);
  }
}
