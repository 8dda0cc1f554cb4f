// The command buffer of a draw list: which runs of the index buffer are drawn, under which clip rectangle
// and texture, and which callbacks come in between.
module DrawCommands {
  import opened Options

  datatype Rect = Rect(left: real, top: real, right: real, bottom: real)

  // The vertex offset of the original's header is always zero, as its indices have 32 bits.
  datatype Header = Header(clip: Rect, texture: int)

  datatype Cmd = Cmd(header: Header, idxOffset: nat, elemCount: nat, callback: Option<int>)

  // ---- what a renderer does with a command buffer

  datatype Event =
    | Draws(index: int, under: Header)
    | Calls(callback: int, under: Header)

  function Rendered(cmds: seq<Cmd>, idx: seq<int>): seq<Event>
    requires forall c <- cmds :: c.idxOffset + c.elemCount <= |idx|
  {
    if cmds == [] then []
    else
      var last := |cmds| - 1;
      Rendered(cmds[..last], idx) + RenderedBy(cmds[last], idx)
  }

  function RenderedBy(c: Cmd, idx: seq<int>): seq<Event>
    requires c.idxOffset + c.elemCount <= |idx|
  {
    match c.callback
    case Some(f) => [Calls(f, c.header)]
    case None => Run(idx, c.idxOffset, c.elemCount, c.header)
  }

  function Run(idx: seq<int>, from: nat, n: nat, h: Header): seq<Event>
    requires from + n <= |idx|
  {
    if n == 0 then [] else Run(idx, from, n - 1, h) + [Draws(idx[from + n - 1], h)]
  }

  // ---- the same, with the indices kept apart

  datatype Mark =
    | Index(under: Header)
    | Call(callback: int, under: Header)

  function Marks(cmds: seq<Cmd>): seq<Mark> {
    if cmds == [] then [] else Marks(cmds[..|cmds| - 1]) + MarksOf(cmds[|cmds| - 1])
  }

  function MarksOf(c: Cmd): seq<Mark> {
    match c.callback
    case Some(f) => [Call(f, c.header)]
    case None => Repeat(Index(c.header), c.elemCount)
  }

  function Repeat(m: Mark, n: nat): (r: seq<Mark>)
    ensures |r| == n
  {
    seq(n, _ => m)
  }

  function IndexCount(marks: seq<Mark>): nat {
    if marks == [] then 0 else IndexCount(marks[..|marks| - 1]) + if marks[|marks| - 1].Index? then 1 else 0
  }

  // Index marks take the indices in order.
  function Filled(marks: seq<Mark>, idx: seq<int>): seq<Event>
    requires IndexCount(marks) <= |idx|
  {
    if marks == [] then []
    else
      var rest, m := marks[..|marks| - 1], marks[|marks| - 1];
      match m
      case Index(h) => Filled(rest, idx) + [Draws(idx[IndexCount(rest)], h)]
      case Call(f, h) => Filled(rest, idx) + [Calls(f, h)]
  }

  // ---- contiguous buffers

  // Every command starts where the one before it ended, the last one ends at `total`, callbacks draw nothing.
  ghost predicate Contiguous(cmds: seq<Cmd>, total: int) {
    if cmds == [] then total == 0
    else
      var last := |cmds| - 1;
      && cmds[last].idxOffset + cmds[last].elemCount == total
      && (cmds[last].callback.Some? ==> cmds[last].elemCount == 0)
      && Contiguous(cmds[..last], cmds[last].idxOffset)
  }

  lemma {:induction false} ContiguousInside(cmds: seq<Cmd>, total: nat)
    requires Contiguous(cmds, total)
    ensures forall c <- cmds :: c.idxOffset + c.elemCount <= total
    ensures IndexCount(Marks(cmds)) == total
  {
    if cmds != [] {
      var init, c := cmds[..|cmds| - 1], cmds[|cmds| - 1];
      ContiguousInside(init, c.idxOffset);
      forall d <- cmds ensures d.idxOffset + d.elemCount <= total {
        if d != c { assert d in init; }
      }
      CountAppended(Marks(init), MarksOf(c));
      CountOf(c);
    }
  }

  lemma {:induction false} CountAppended(a: seq<Mark>, b: seq<Mark>)
    ensures IndexCount(a + b) == IndexCount(a) + IndexCount(b)
  {
    if b == [] {
      assert a + b == a;
    } else {
      assert (a + b)[..|a + b| - 1] == a + b[..|b| - 1];
      CountAppended(a, b[..|b| - 1]);
    }
  }

  lemma CountOf(c: Cmd)
    requires c.callback.Some? ==> c.elemCount == 0
    ensures IndexCount(MarksOf(c)) == c.elemCount
  {
    if c.callback.None? { CountRepeat(Index(c.header), c.elemCount); }
  }

  lemma {:induction false} CountRepeat(m: Mark, n: nat)
    requires m.Index?
    ensures IndexCount(Repeat(m, n)) == n
  {
    if n > 0 {
      assert Repeat(m, n)[..n - 1] == Repeat(m, n - 1);
      CountRepeat(m, n - 1);
    }
  }

  // A contiguous buffer renders its marks, filled with the indices in order.
  lemma {:induction false} RenderedIsFilled(cmds: seq<Cmd>, idx: seq<int>, total: nat)
    requires Contiguous(cmds, total) && total <= |idx|
    requires forall c <- cmds :: c.idxOffset + c.elemCount <= |idx|
    requires IndexCount(Marks(cmds)) <= |idx|
    ensures Rendered(cmds, idx) == Filled(Marks(cmds), idx)
  {
    if cmds != [] {
      var init, c := cmds[..|cmds| - 1], cmds[|cmds| - 1];
      ContiguousInside(init, c.idxOffset);
      RenderedIsFilled(init, idx, c.idxOffset);
      CountAppended(Marks(init), MarksOf(c));
      match c.callback {
        case Some(f) => assert (Marks(init) + MarksOf(c))[..|Marks(init)|] == Marks(init);
        case None => FilledRun(Marks(init), c.header, c.elemCount, idx);
      }
    }
  }

  lemma {:induction false} FilledRun(marks: seq<Mark>, h: Header, n: nat, idx: seq<int>)
    requires IndexCount(marks) + n <= |idx|
    requires IndexCount(marks + Repeat(Index(h), n)) <= |idx|
    ensures Filled(marks + Repeat(Index(h), n), idx)
            == Filled(marks, idx) + Run(idx, IndexCount(marks), n, h)
  {
    if n == 0 {
      assert marks + Repeat(Index(h), n) == marks;
    } else {
      var rest := marks + Repeat(Index(h), n - 1);
      RunCounts(marks, h, n - 1);
      RepeatPushed(marks, Index(h), n);
      FilledOne(rest, h, idx);
      FilledRun(marks, h, n - 1, idx);
      RunPushed(Filled(marks, idx), idx, IndexCount(marks), n, h);
    }
  }

  lemma RunCounts(marks: seq<Mark>, h: Header, n: nat)
    ensures IndexCount(marks + Repeat(Index(h), n)) == IndexCount(marks) + n
  {
    CountAppended(marks, Repeat(Index(h), n));
    CountRepeat(Index(h), n);
  }

  lemma RepeatPushed(marks: seq<Mark>, m: Mark, n: nat)
    requires n > 0
    ensures marks + Repeat(m, n) == marks + Repeat(m, n - 1) + [m]
  {
  }

  lemma RunPushed(done: seq<Event>, idx: seq<int>, from: nat, n: nat, h: Header)
    requires n > 0 && from + n <= |idx|
    ensures done + Run(idx, from, n, h) == done + Run(idx, from, n - 1, h) + [Draws(idx[from + n - 1], h)]
  {
  }

  lemma FilledOne(marks: seq<Mark>, h: Header, idx: seq<int>)
    requires IndexCount(marks) < |idx| && IndexCount(marks + [Index(h)]) <= |idx|
    ensures Filled(marks + [Index(h)], idx) == Filled(marks, idx) + [Draws(idx[IndexCount(marks)], h)]
  {
    assert (marks + [Index(h)])[..|marks|] == marks;
  }

  // What the last mark adds.
  function LastFilled(marks: seq<Mark>, idx: seq<int>): Event
    requires marks != [] && IndexCount(marks) <= |idx|
  {
    var n := IndexCount(marks[..|marks| - 1]);
    match marks[|marks| - 1]
    case Index(h) => Draws(idx[n], h)
    case Call(f, h) => Calls(f, h)
  }

  lemma FilledLast(marks: seq<Mark>, idx: seq<int>)
    requires marks != [] && IndexCount(marks) <= |idx|
    ensures Filled(marks, idx) == Filled(marks[..|marks| - 1], idx) + [LastFilled(marks, idx)]
  {
  }

  lemma LastFilledAppended(a: seq<Mark>, x: seq<int>, b: seq<Mark>, y: seq<int>)
    requires b != [] && IndexCount(a) == |x| && IndexCount(b) <= |y| && IndexCount(a + b) <= |x + y|
    ensures LastFilled(a + b, x + y) == LastFilled(b, y)
  {
    var init := b[..|b| - 1];
    assert (a + b)[..|a + b| - 1] == a + init;
    CountAppended(a, init);
  }

  // Filling streams one after the other.
  lemma {:induction false} FilledAppended(a: seq<Mark>, x: seq<int>, b: seq<Mark>, y: seq<int>)
    requires IndexCount(a) == |x| && IndexCount(b) <= |y|
    requires IndexCount(a + b) <= |x + y|
    ensures Filled(a + b, x + y) == Filled(a, x) + Filled(b, y)
  {
    if b == [] {
      assert a + b == a && Filled(a, x) + [] == Filled(a, x);
      FilledPrefix(a, x, y);
    } else {
      var init := b[..|b| - 1];
      assert (a + b)[..|a + b| - 1] == a + init;
      FilledLast(a + b, x + y);
      LastFilledAppended(a, x, b, y);
      FilledAppended(a, x, init, y);
      FilledLast(b, y);
      assert Filled(a, x) + (Filled(init, y) + [LastFilled(b, y)]) == Filled(a, x) + Filled(init, y) + [LastFilled(b, y)];
    }
  }

  lemma {:induction false} FilledPrefix(a: seq<Mark>, x: seq<int>, y: seq<int>)
    requires IndexCount(a) <= |x|
    ensures Filled(a, x + y) == Filled(a, x)
  {
    if a != [] { FilledPrefix(a[..|a| - 1], x, y); }
  }

  // ---- edits at the end of a buffer

  function Last(cmds: seq<Cmd>): Cmd
    requires cmds != []
  {
    cmds[|cmds| - 1]
  }

  function Front(cmds: seq<Cmd>): seq<Cmd>
    requires cmds != []
  {
    cmds[..|cmds| - 1]
  }

  predicate Unused(c: Cmd) { c.elemCount == 0 && c.callback.None? }

  // A command that can take over what the next one draws.
  predicate Joins(c: Cmd, d: Cmd) { c.header == d.header && c.callback.None? && d.callback.None? }

  function Grown(c: Cmd, n: nat): Cmd { c.(elemCount := c.elemCount + n) }

  function WithLast(cmds: seq<Cmd>, c: Cmd): seq<Cmd>
    requires cmds != []
  {
    cmds[|cmds| - 1 := c]
  }

  lemma Pushed(cmds: seq<Cmd>, total: nat, c: Cmd)
    requires Contiguous(cmds, total) && c.idxOffset == total && (c.callback.Some? ==> c.elemCount == 0)
    ensures Contiguous(cmds + [c], total + c.elemCount) && Marks(cmds + [c]) == Marks(cmds) + MarksOf(c)
  {
    assert (cmds + [c])[..|cmds|] == cmds;
  }

  lemma LastChanged(cmds: seq<Cmd>, total: nat, c: Cmd)
    requires cmds != [] && Contiguous(cmds, total) && c.idxOffset == Last(cmds).idxOffset
    requires c.callback.Some? ==> c.elemCount == 0
    ensures Contiguous(WithLast(cmds, c), c.idxOffset + c.elemCount)
    ensures Marks(WithLast(cmds, c)) == Marks(Front(cmds)) + MarksOf(c)
  {
    assert Front(WithLast(cmds, c)) == Front(cmds);
  }

  lemma UnusedPopped(cmds: seq<Cmd>, total: nat)
    requires cmds != [] && Contiguous(cmds, total) && Unused(Last(cmds))
    ensures Contiguous(Front(cmds), total) && Marks(Front(cmds)) == Marks(cmds)
  {
  }

  lemma RepeatAdds(m: Mark, a: nat, b: nat)
    ensures Repeat(m, a) + Repeat(m, b) == Repeat(m, a + b)
  {
  }

  // Two runs under one header are one run.
  lemma JoinedMarks(cmds: seq<Cmd>, total: nat, d: Cmd)
    requires cmds != [] && Contiguous(cmds, total) && Joins(Last(cmds), d)
    ensures var joined := WithLast(cmds, Grown(Last(cmds), d.elemCount));
            Contiguous(joined, total + d.elemCount) && Marks(joined) == Marks(cmds) + MarksOf(d)
  {
    var c := Last(cmds);
    LastChanged(cmds, total, Grown(c, d.elemCount));
    RepeatAdds(Index(c.header), c.elemCount, d.elemCount);
  }

  lemma MarksOfPushed(cmds: seq<Cmd>, c: Cmd)
    ensures Marks(cmds + [c]) == Marks(cmds) + MarksOf(c)
  {
    assert (cmds + [c])[..|cmds|] == cmds;
  }

  lemma {:induction false} MarksAppended(a: seq<Cmd>, b: seq<Cmd>)
    ensures Marks(a + b) == Marks(a) + Marks(b)
  {
    if b == [] {
      assert a + b == a;
    } else {
      MarksAppended(a, Front(b));
      assert a + b == a + Front(b) + [Last(b)];
      MarksOfPushed(a + Front(b), Last(b));
      Regrouped(Marks(a), Marks(Front(b)), MarksOf(Last(b)));
    }
  }

  // ---- one buffer behind another

  // The offsets rebuilt so that the commands follow a buffer that ends at `offset`.
  function Rebased(cmds: seq<Cmd>, offset: nat): (r: seq<Cmd>)
    ensures |r| == |cmds|
    decreases |cmds|
  {
    if cmds == [] then []
    else
      var c := Last(cmds);
      Rebased(Front(cmds), offset) + [c.(idxOffset := offset + Total(Front(cmds)))]
  }

  function Total(cmds: seq<Cmd>): nat {
    if cmds == [] then 0 else Total(Front(cmds)) + Last(cmds).elemCount
  }

  lemma {:induction false} ContiguousTotal(cmds: seq<Cmd>, total: nat)
    requires Contiguous(cmds, total)
    ensures Total(cmds) == total && CallsDrawNothing(cmds)
  {
    if cmds != [] { ContiguousTotal(Front(cmds), Last(cmds).idxOffset); }
  }

  ghost predicate CallsDrawNothing(cmds: seq<Cmd>) {
    forall k :: 0 <= k < |cmds| && cmds[k].callback.Some? ==> cmds[k].elemCount == 0
  }

  lemma {:induction false} RebasedFollows(cmds: seq<Cmd>, total: nat, more: seq<Cmd>)
    requires Contiguous(cmds, total) && CallsDrawNothing(more)
    ensures Contiguous(cmds + Rebased(more, total), total + Total(more))
    ensures Marks(cmds + Rebased(more, total)) == Marks(cmds) + Marks(more)
    decreases |more|
  {
    if more == [] {
      assert cmds + Rebased(more, total) == cmds;
    } else {
      var c := Last(more).(idxOffset := total + Total(Front(more)));
      RebasedFollows(cmds, total, Front(more));
      Regrouped(Marks(cmds), Marks(Front(more)), MarksOf(Last(more)));
      assert cmds + Rebased(more, total) == cmds + Rebased(Front(more), total) + [c];
      Pushed(cmds + Rebased(Front(more), total), total + Total(Front(more)), c);
    }
  }

  lemma {:induction false} TotalPrepended(d: Cmd, rest: seq<Cmd>)
    ensures Total([d] + rest) == d.elemCount + Total(rest)
    decreases |rest|
  {
    if rest == [] {
      assert [d] + rest == [d] && Front([d]) == [];
    } else {
      assert Front([d] + rest) == [d] + Front(rest);
      TotalPrepended(d, Front(rest));
    }
  }

  // Trailing a buffer by another one, whose first command may go into the last one of the first.
  function Grafted(cmds: seq<Cmd>, next: seq<Cmd>): (r: (seq<Cmd>, seq<Cmd>)) {
    if cmds != [] && next != [] && Joins(Last(cmds), next[0])
    then (WithLast(cmds, Grown(Last(cmds), next[0].elemCount)), next[1..])
    else (cmds, next)
  }

  lemma Regrouped(a: seq<Mark>, b: seq<Mark>, c: seq<Mark>)
    ensures a + b + c == a + (b + c)
  {
  }

  lemma MarksPrepended(d: Cmd, rest: seq<Cmd>)
    ensures Marks([d] + rest) == MarksOf(d) + Marks(rest)
  {
    MarksAppended([d], rest);
    MarksOfPushed([], d);
    assert [] + [d] == [d];
  }

  lemma JoinedFollows(cmds: seq<Cmd>, total: nat, out: seq<Cmd>, d: Cmd, rest: seq<Cmd>, start: nat, end: nat)
    requires cmds != [] && Contiguous(cmds, total) && CallsDrawNothing(rest) && Joins(Last(cmds), d)
    requires out == WithLast(cmds, Grown(Last(cmds), d.elemCount))
    requires start == total + d.elemCount && end == start + Total(rest)
    ensures Contiguous(out, start) && Contiguous(out + Rebased(rest, start), end)
    ensures Marks(out + Rebased(rest, start)) == Marks(cmds) + Marks([d] + rest)
  {
    JoinedMarks(cmds, total, d);
    RebasedFollows(out, start, rest);
    MarksPrepended(d, rest);
    Regrouped(Marks(cmds), MarksOf(d), Marks(rest));
  }

  lemma FirstJoins(cmds: seq<Cmd>, total: nat, next: seq<Cmd>, out: seq<Cmd>, start: nat, end: nat)
    requires cmds != [] && next != [] && Contiguous(cmds, total) && CallsDrawNothing(next) && Joins(Last(cmds), next[0])
    requires out == WithLast(cmds, Grown(Last(cmds), next[0].elemCount))
    requires end == total + Total(next) && start == end - Total(next[1..])
    ensures Contiguous(out, start) && Contiguous(out + Rebased(next[1..], start), end)
    ensures Marks(out + Rebased(next[1..], start)) == Marks(cmds) + Marks(next)
  {
    Split(next);
    TotalPrepended(next[0], next[1..]);
    JoinedFollows(cmds, total, out, next[0], next[1..], start, end);
  }

  lemma Split(cmds: seq<Cmd>)
    requires cmds != []
    ensures cmds == [cmds[0]] + cmds[1..]
  {
  }

  lemma NoneJoins(cmds: seq<Cmd>, total: nat, next: seq<Cmd>, start: int, end: int)
    requires Contiguous(cmds, total) && CallsDrawNothing(next) && end == total + Total(next) && start == total
    ensures Contiguous(cmds + Rebased(next, start), end) && Marks(cmds + Rebased(next, start)) == Marks(cmds) + Marks(next)
  {
    RebasedFollows(cmds, total, next);
  }

  lemma GraftedFollows(cmds: seq<Cmd>, total: nat, next: seq<Cmd>, more: nat, out: seq<Cmd>, rest: seq<Cmd>, start: int)
    requires Contiguous(cmds, total) && Contiguous(next, more)
    requires (out, rest) == Grafted(cmds, next) && start == total + more - Total(rest)
    ensures start >= 0 && Contiguous(out, start) && Contiguous(out + Rebased(rest, start), total + more)
    ensures Marks(out + Rebased(rest, start)) == Marks(cmds) + Marks(next)
  {
    ContiguousTotal(next, more);
    if cmds != [] && next != [] && Joins(Last(cmds), next[0]) {
      assert out == WithLast(cmds, Grown(Last(cmds), next[0].elemCount)) && rest == next[1..];
      RestIsLess(next);
      FirstJoins(cmds, total, next, out, start, total + more);
    } else {
      assert out == cmds && rest == next;
      NoneJoins(cmds, total, next, start, total + more);
    }
  }

  lemma RestIsLess(cmds: seq<Cmd>)
    requires cmds != []
    ensures Total(cmds[1..]) <= Total(cmds)
  {
    Split(cmds);
    TotalPrepended(cmds[0], cmds[1..]);
  }
}
